/** `parse_range_notation` of both scripts: comma-separated range shorthand
    to a list of two-card combos.

    A token is stripped; one shorter than two characters is skipped; every
    "10" in it becomes "T".  A four-character token whose second and fourth
    characters are suit letters is an exact combo ("AhKd").  Otherwise the
    first two characters must be ranks: equal ranks make a pair token
    ("QQ", "TT+"), different ranks a non-pair token ("AKs", "KAo", "AT+").
    Anything else contributes nothing, and parsing goes on with the next
    token.  Results are concatenated in token order and never deduplicated. */
module RangeParser {
  import opened Seqs
  import opened Text
  import opened Cards

  /** One starting hand as the scripts hold it: a two-element list whose
      first card is the top card of the shorthand. */
  datatype Combo = Combo(first: Card, second: Card)

  /** A parsed range: combos in the order the parser emits them. */
  type Range = seq<Combo>

  function C(r1: Rank, s1: Suit, r2: Rank, s2: Suit): Combo {
    Combo(Card(r1, s1), Card(r2, s2))
  }

  // ---------------------------------------------------------------------
  // Per-rank expansions
  // ---------------------------------------------------------------------

  /** The six suit pairs `i < j` of one pair rank, in the loop order of
      `for i in range(4): for j in range(i+1, 4)`. */
  function PairCombos(r: Rank): seq<Combo> {
    [C(r, 0, r, 1), C(r, 0, r, 2), C(r, 0, r, 3),
     C(r, 1, r, 2), C(r, 1, r, 3), C(r, 2, r, 3)]
  }

  /** The four same-suit combos of top rank `hi` and kicker `k`. */
  function SuitedCombos(hi: Rank, k: Rank): seq<Combo> {
    [C(hi, 0, k, 0), C(hi, 1, k, 1), C(hi, 2, k, 2), C(hi, 3, k, 3)]
  }

  /** The twelve cross-suit combos of top rank `hi` and kicker `k`, in the
      loop order of `for s1 in suits: for s2 in suits: if s1 != s2`. */
  function OffsuitCombos(hi: Rank, k: Rank): seq<Combo> {
    [C(hi, 0, k, 1), C(hi, 0, k, 2), C(hi, 0, k, 3),
     C(hi, 1, k, 0), C(hi, 1, k, 2), C(hi, 1, k, 3),
     C(hi, 2, k, 0), C(hi, 2, k, 1), C(hi, 2, k, 3),
     C(hi, 3, k, 0), C(hi, 3, k, 1), C(hi, 3, k, 2)]
  }

  /** Which suit classes a non-pair token emits: same-suit combos when it
      says `s` or says neither `s` nor `o`; cross-suit combos when it says
      `o` or says neither. */
  predicate EmitsSuited(suited: bool, offsuit: bool) { suited || (!offsuit && !suited) }
  predicate EmitsOffsuit(suited: bool, offsuit: bool) { offsuit || (!offsuit && !suited) }

  /** The combos one kicker contributes. */
  function KickerCombos(hi: Rank, k: Rank, suited: bool, offsuit: bool): seq<Combo> {
    (if EmitsSuited(suited, offsuit) then SuitedCombos(hi, k) else [])
    + (if EmitsOffsuit(suited, offsuit) then OffsuitCombos(hi, k) else [])
  }

  /** `for r in range(lo, top + 1)` over pair ranks. */
  function PairRun(lo: nat, top: Rank): seq<Combo>
    decreases top + 1 - lo
  {
    if lo > top then [] else PairCombos(lo) + PairRun(lo + 1, top)
  }

  /** `for k in range(lo, topK + 1)` over kickers under top rank `hi`. */
  function KickerRun(hi: Rank, lo: nat, topK: int, suited: bool, offsuit: bool): seq<Combo>
    requires topK < 13
    decreases topK + 1 - lo
  {
    if lo > topK then [] else KickerCombos(hi, lo, suited, offsuit) + KickerRun(hi, lo + 1, topK, suited, offsuit)
  }

  // ---------------------------------------------------------------------
  // Tokens
  // ---------------------------------------------------------------------

  /** The `+`, `s` and `o` flags, tested anywhere in the token. */
  datatype Flags = Flags(plus: bool, suited: bool, offsuit: bool)

  function FlagsOf(p: string): Flags {
    Flags('+' in p, 's' in p, 'o' in p)
  }

  /** The shorthand branch: the first two characters are ranks (else
      nothing); equal ranks expand as a pair, different ranks as a non-pair
      with the higher rank on top. */
  function Shorthand(p: string): Range {
    if |p| < 2 then []
    else match (RankOf(p[0]), RankOf(p[1]))
      case (Some(a), Some(b)) =>
        var f := FlagsOf(p);
        if a == b then PairRun(a, if f.plus then 12 else a)
        else
          var hi: Rank := Max(a, b);
          var lo: Rank := Min(a, b);
          KickerRun(hi, lo, if f.plus then hi - 1 else lo, f.suited, f.offsuit)
      case _ => []
  }

  /** A token of exact-combo shape: four characters, the second and fourth
      suit letters. */
  predicate ExactShape(p: string) {
    |p| == 4 && p[1] in SUITS && p[3] in SUITS
  }

  /** The expansion of one stripped token. */
  function ExpandToken(e: Engine, part: string): (r: Range)
    ensures r != [] ==> ExactShape(ReplaceTen(part)) || RankPrefix(ReplaceTen(part))
  {
    if |part| < 2 then []
    else
      var p := ReplaceTen(part);
      if ExactShape(p) then
        match (ExactCard(e, p[..2]), ExactCard(e, p[2..]))
        case (Some(c1), Some(c2)) => [Combo(c1, c2)]
        // eval7 raised: the token falls through to the shorthand branch;
        // treys' `str_to_card` returned None: the token is dropped.
        case _ => if e == Eval7 then Shorthand(p) else []
      else Shorthand(p)
  }

  /** The expansions of a list of raw (unstripped) tokens, concatenated. */
  function ExpandAll(e: Engine, parts: seq<string>): Range {
    FlatMap(parts, (part: string) => ExpandToken(e, Strip(part)))
  }

  /** `parse_range_notation(text)`. */
  function Parse(e: Engine, text: string): Range {
    if text == [] then [] else ExpandAll(e, Split(text, ','))
  }

  // ---------------------------------------------------------------------
  // What each expansion contains
  // ---------------------------------------------------------------------

  /** Membership in the pair run from `lo` to `top`: two cards of one rank in
      that window, suits in increasing order. */
  ghost predicate PairMember(c: Combo, lo: int, top: int) {
    && c.first.rank == c.second.rank
    && lo <= c.first.rank <= top
    && c.first.suit < c.second.suit
  }

  /** Membership in the kicker run under `hi` from `lo` to `topK`: the top
      card has rank `hi`, the kicker a rank in the window, and the suit class
      is one the flags emit. */
  ghost predicate KickerMember(c: Combo, hi: Rank, lo: int, topK: int, suited: bool, offsuit: bool) {
    && c.first.rank == hi
    && lo <= c.second.rank <= topK
    && (if c.first.suit == c.second.suit then EmitsSuited(suited, offsuit) else EmitsOffsuit(suited, offsuit))
  }

  /** Number of combos per kicker: 4 with `s` alone, 12 with `o` alone, 16
      otherwise. */
  function PerKicker(suited: bool, offsuit: bool): (n: nat)
    ensures suited && !offsuit ==> n == 4
    ensures offsuit && !suited ==> n == 12
    ensures suited == offsuit ==> n == 16
  {
    (if EmitsSuited(suited, offsuit) then 4 else 0) + (if EmitsOffsuit(suited, offsuit) then 12 else 0)
  }

  lemma PairCombosSpec(r: Rank)
    ensures |PairCombos(r)| == 6 && NoDup(PairCombos(r))
    ensures forall c :: c in PairCombos(r) <==> PairMember(c, r, r)
  {
    forall c | PairMember(c, r, r) ensures c in PairCombos(r) {
      var s1, s2 := c.first.suit, c.second.suit;
      if s1 == 0 {
        assert c == C(r, 0, r, s2);
      } else if s1 == 1 {
        assert c == C(r, 1, r, s2);
      } else {
        assert c == C(r, 2, r, 3);
      }
    }
  }

  lemma KickerCombosSpec(hi: Rank, k: Rank, suited: bool, offsuit: bool)
    ensures |KickerCombos(hi, k, suited, offsuit)| == PerKicker(suited, offsuit)
    ensures NoDup(KickerCombos(hi, k, suited, offsuit))
    ensures forall c :: c in KickerCombos(hi, k, suited, offsuit) <==> KickerMember(c, hi, k, k, suited, offsuit)
  {
    var sc, oc := SuitedCombos(hi, k), OffsuitCombos(hi, k);
    assert NoDup(sc) && NoDup(oc);
    forall c | KickerMember(c, hi, k, k, suited, offsuit)
      ensures c in KickerCombos(hi, k, suited, offsuit)
    {
      var s1, s2 := c.first.suit, c.second.suit;
      if s1 == s2 {
        assert c == sc[s1];
      } else {
        assert c in oc by {
          if s1 == 0 {
            assert c == C(hi, 0, k, s2);
          } else if s1 == 1 {
            assert c == C(hi, 1, k, s2);
          } else if s1 == 2 {
            assert c == C(hi, 2, k, s2);
          } else {
            assert c == C(hi, 3, k, s2);
          }
        }
      }
    }
    if EmitsSuited(suited, offsuit) && EmitsOffsuit(suited, offsuit) {
      NoDupAppend(sc, oc);
    }
  }

  /** The pair run holds `6 * (top - lo + 1)` distinct combos, exactly the
      pairs of the ranks from `lo` to `top`. */
  lemma {:induction false} PairRunSpec(lo: nat, top: Rank)
    requires lo <= top + 1
    ensures |PairRun(lo, top)| == 6 * (top + 1 - lo)
    ensures NoDup(PairRun(lo, top))
    ensures forall c :: c in PairRun(lo, top) <==> PairMember(c, lo, top)
    decreases top + 1 - lo
  {
    if lo <= top {
      PairCombosSpec(lo);
      PairRunSpec(lo + 1, top);
      var head, tail := PairCombos(lo), PairRun(lo + 1, top);
      forall i, j | 0 <= i < |head| && 0 <= j < |tail| ensures head[i] != tail[j] {
        assert head[i] in head && tail[j] in tail;
      }
      NoDupAppend(head, tail);
    }
  }

  /** The kicker run holds `(topK - lo + 1) * PerKicker` distinct combos,
      exactly the combos with top rank `hi` and a kicker from `lo` to
      `topK` in the suit classes the flags emit. */
  lemma {:induction false} KickerRunSpec(hi: Rank, lo: nat, topK: int, suited: bool, offsuit: bool)
    requires topK < 13 && lo <= topK + 1
    ensures |KickerRun(hi, lo, topK, suited, offsuit)| == (topK + 1 - lo) * PerKicker(suited, offsuit)
    ensures NoDup(KickerRun(hi, lo, topK, suited, offsuit))
    ensures forall c :: c in KickerRun(hi, lo, topK, suited, offsuit) <==> KickerMember(c, hi, lo, topK, suited, offsuit)
    decreases topK + 1 - lo
  {
    if lo <= topK {
      KickerCombosSpec(hi, lo, suited, offsuit);
      KickerRunSpec(hi, lo + 1, topK, suited, offsuit);
      var head, tail := KickerCombos(hi, lo, suited, offsuit), KickerRun(hi, lo + 1, topK, suited, offsuit);
      forall i, j | 0 <= i < |head| && 0 <= j < |tail| ensures head[i] != tail[j] {
        assert head[i] in head && tail[j] in tail;
      }
      NoDupAppend(head, tail);
    }
  }

  // ---------------------------------------------------------------------
  // Shorthand tokens
  // ---------------------------------------------------------------------

  /** A token whose first two characters are ranks. */
  predicate RankPrefix(p: string) {
    |p| >= 2 && p[0] in RANKS && p[1] in RANKS
  }

  /** The combos a shorthand token stands for, stated without the loops:
      for a pair token every two-suit combo of each rank from the given one
      (up to the ace with `+`); for a non-pair token every combo with the
      higher rank on top and a kicker from the lower rank (up to one below
      the top rank with `+`), restricted to the suit classes of `s`/`o`. */
  ghost predicate ShorthandMember(p: string, c: Combo)
    requires RankPrefix(p)
  {
    var a, b := RankOf(p[0]).value, RankOf(p[1]).value;
    var f := FlagsOf(p);
    if a == b then PairMember(c, a, if f.plus then 12 else a)
    else
      var hi: Rank := Max(a, b);
      KickerMember(c, hi, Min(a, b), if f.plus then hi - 1 else Min(a, b), f.suited, f.offsuit)
  }

  /** How many combos a shorthand token stands for: 6 per pair rank, and 4,
      12 or 16 per kicker. */
  function ShorthandSize(p: string): nat
    requires RankPrefix(p)
  {
    var a, b := RankOf(p[0]).value, RankOf(p[1]).value;
    var f := FlagsOf(p);
    if a == b then 6 * (if f.plus then 13 - a else 1)
    else (if f.plus then Max(a, b) - Min(a, b) else 1) * PerKicker(f.suited, f.offsuit)
  }

  /** The two ranks of a shorthand token and the run it expands to. */
  lemma ShorthandRun(p: string) returns (a: Rank, b: Rank)
    requires RankPrefix(p)
    ensures RankOf(p[0]) == Some(a) && RankOf(p[1]) == Some(b)
    ensures var f := FlagsOf(p);
      && (a == b ==> Shorthand(p) == PairRun(a, if f.plus then 12 else a))
      && (a != b ==> Shorthand(p) == KickerRun(Max(a, b), Min(a, b), if f.plus then Max(a, b) - 1 else Min(a, b), f.suited, f.offsuit))
  {
    a, b := RankOf(p[0]).value, RankOf(p[1]).value;
  }

  /** A shorthand token expands to `ShorthandSize` combos, each once. */
  lemma ShorthandCount(p: string)
    requires RankPrefix(p)
    ensures |Shorthand(p)| == ShorthandSize(p) > 0
    ensures NoDup(Shorthand(p))
  {
    var a, b := ShorthandRun(p);
    var f := FlagsOf(p);
    if a == b {
      var top: Rank := if f.plus then 12 else a;
      PairRunSpec(a, top);
      assert top + 1 - a == (if f.plus then 13 - a as int else 1);
    } else {
      var topK := if f.plus then Max(a, b) - 1 else Min(a, b);
      KickerRunSpec(Max(a, b), Min(a, b), topK, f.suited, f.offsuit);
      assert topK + 1 - Min(a, b) == (if f.plus then Max(a, b) - Min(a, b) else 1);
    }
  }

  /** A shorthand token expands to exactly the combos it stands for; every
      one has two distinct cards and a top card of rank at least the
      second's. */
  lemma ShorthandContents(p: string)
    requires RankPrefix(p)
    ensures forall c :: c in Shorthand(p) <==> ShorthandMember(p, c)
    ensures forall c :: c in Shorthand(p) ==> c.first != c.second && c.first.rank >= c.second.rank
  {
    var a, b := ShorthandRun(p);
    var f := FlagsOf(p);
    if a == b {
      PairRunSpec(a, if f.plus then 12 else a);
    } else {
      KickerRunSpec(Max(a, b), Min(a, b), if f.plus then Max(a, b) - 1 else Min(a, b), f.suited, f.offsuit);
    }
  }

  /** The order of the two ranks does not matter: "KAs" is "AKs". */
  lemma ShorthandSwap(p: string)
    requires |p| >= 2
    ensures Shorthand([p[1], p[0]] + p[2..]) == Shorthand(p)
  {
    var q := [p[1], p[0]] + p[2..];
    assert |q| == |p| && q[0] == p[1] && q[1] == p[0];
    SwapKeepsChars(p, '+');
    SwapKeepsChars(p, 's');
    SwapKeepsChars(p, 'o');
    assert FlagsOf(q) == FlagsOf(p);
    match (RankOf(p[0]), RankOf(p[1]))
    case (Some(a), Some(b)) =>
      assert Max(a, b) == Max(b, a) && Min(a, b) == Min(b, a);
    case _ =>
  }

  /** Swapping the first two characters keeps the set of characters. */
  lemma SwapKeepsChars(p: string, c: char)
    requires |p| >= 2
    ensures c in [p[1], p[0]] + p[2..] <==> c in p
  {
    var q := [p[1], p[0]] + p[2..];
    if c in q {
      var i :| 0 <= i < |q| && q[i] == c;
      if i == 0 { assert p[1] == c; } else if i == 1 { assert p[0] == c; } else { assert p[i] == c; }
    }
    if c in p {
      var i :| 0 <= i < |p| && p[i] == c;
      if i == 0 { assert q[1] == c; } else if i == 1 { assert q[0] == c; } else { assert q[i] == c; }
    }
  }

  // ---------------------------------------------------------------------
  // Tokens that contribute nothing, exact combos, the two engines
  // ---------------------------------------------------------------------

  /** A token contributes nothing when it is shorter than two characters,
      or when, after the "10" replacement, it is not of exact-combo shape and
      does not start with two ranks (ranks are case-sensitive). */
  lemma TokenSkipped(e: Engine, part: string)
    requires || |part| < 2
             || (var p := ReplaceTen(part); !ExactShape(p) && !RankPrefix(p))
    ensures ExpandToken(e, part) == []
  {
  }

  /** A token of exact-combo shape yields the one combo of its two codes
      when both are valid cards, and nothing otherwise, with either engine:
      with eval7 the failed token falls through to the shorthand branch,
      which rejects it because its second character is a suit letter. */
  lemma ExactToken(e: Engine, part: string)
    requires |part| >= 2 && ExactShape(ReplaceTen(part))
    ensures var p := ReplaceTen(part);
      ExpandToken(e, part) ==
        match (ExactCard(e, p[..2]), ExactCard(e, p[2..]))
        case (Some(c1), Some(c2)) => [Combo(c1, c2)]
        case _ => []
    ensures |ExpandToken(e, part)| <= 1
  {
    var p := ReplaceTen(part);
    assert p[1] !in RANKS by {
      assert forall x :: x in SUITS ==> x !in RANKS;
    }
  }

  /** The four-character token made of two card codes yields that one combo,
      even when both codes name the same card ("AhAh"): distinctness is not
      checked. */
  lemma ExactCodes(e: Engine, c1: Card, c2: Card)
    ensures ExpandToken(e, Code(c1) + Code(c2)) == [Combo(c1, c2)]
  {
    var t := Code(c1) + Code(c2);
    NoDigitOneOrZero(c1);
    NoDigitOneOrZero(c2);
    assert '1' !in t;
    ReplaceTenRemovesTens(t);
    assert t[..2] == Code(c1) && t[2..] == Code(c2);
    CodeRoundTrip(e, c1);
    CodeRoundTrip(e, c2);
  }

  /** A two-character card code with a suit letter second and no '0' first
      means the same card to eval7 and to `str_to_card`. */
  lemma ExactCardAgree(x: string)
    requires |x| == 2 && x[1] in SUITS && x[0] != '0'
    ensures ExactCard(Eval7, x) == ExactCard(Treys, x)
  {
    assert x[1] != '0' by {
      assert '0' !in SUITS;
    }
    assert ReplaceTen(x) == x by {
      assert x[1..] == [x[1]];
      assert ReplaceTen([x[1]]) == [x[1]] by {
        assert [x[1]][1..] == [];
      }
    }
    assert ReplaceChar(x, '0', 'T') == x;
  }

  /** The two scripts expand every token the same way, except an exact-combo
      token with a '0' rank ("0hAs"), which only `str_to_card` reads as a ten. */
  lemma EnginesAgree(part: string)
    requires var p := ReplaceTen(part); !(ExactShape(p) && (p[0] == '0' || p[2] == '0'))
    ensures ExpandToken(Eval7, part) == ExpandToken(Treys, part)
  {
    if |part| >= 2 {
      var p := ReplaceTen(part);
      if ExactShape(p) {
        ExactToken(Eval7, part);
        ExactToken(Treys, part);
        ExactCardAgree(p[..2]);
        ExactCardAgree(p[2..]);
      }
    }
  }

  /** Where the engines differ: a '0' standing for the ten in an exact
      combo is a ten to treys and an unknown rank to eval7. */
  lemma ZeroTenExact(u: Suit, c2: Card)
    ensures var t := ['0', SUITS[u]] + Code(c2);
      && ExpandToken(Treys, t) == [Combo(Card(8, u), c2)]
      && ExpandToken(Eval7, t) == []
  {
    var t := ['0', SUITS[u]] + Code(c2);
    ZeroTenToken(u, c2);
    ZeroTenCode(u);
    CodeRoundTrip(Treys, c2);
    ExactToken(Eval7, t);
    ExactToken(Treys, t);
  }

  lemma ZeroTenToken(u: Suit, c2: Card)
    ensures var t := ['0', SUITS[u]] + Code(c2);
      && ReplaceTen(t) == t && ExactShape(t)
      && t[..2] == ['0', SUITS[u]] && t[2..] == Code(c2)
  {
    var t := ['0', SUITS[u]] + Code(c2);
    NoDigitOneOrZero(c2);
    assert SUITS[u] != '1';
    ReplaceTenRemovesTens(t[1..]);
    assert '1' !in t[1..];
    assert t == [t[0]] + t[1..];
  }

  lemma ZeroTenCode(u: Suit)
    ensures ExactCard(Treys, ['0', SUITS[u]]) == Some(Card(8, u))
    ensures ExactCard(Eval7, ['0', SUITS[u]]) == None
  {
    var x := ['0', SUITS[u]];
    assert SUITS[u] != '0' && SUITS[u] != '1';
    assert ReplaceTen(x) == x by {
      assert x[1..] == [SUITS[u]];
      assert [SUITS[u]][1..] == [];
    }
    assert ReplaceChar(x, '0', 'T') == ['T', SUITS[u]];
    AlphabetsDistinct();
    assert '0' !in RANKS;
  }

  // ---------------------------------------------------------------------
  // Whole texts
  // ---------------------------------------------------------------------

  /** The early return on the empty text agrees with splitting it, so
      every text, empty or not, is parsed token by token. */
  lemma ParseTokens(e: Engine, text: string)
    ensures Parse(e, text) == ExpandAll(e, Split(text, ','))
  {
    if text == [] {
      assert Split(text, ',') == [[]];
      ExpandAllBlank(e, [[]]);
    }
  }

  lemma ExpandAllCons(e: Engine, parts: seq<string>)
    requires parts != []
    ensures ExpandAll(e, parts) == ExpandToken(e, Strip(parts[0])) + ExpandAll(e, parts[1..])
  {
  }

  /** The range of "a,b" is the range of "a" followed by the range of "b":
      token order is kept and nothing is deduplicated, so "AKs,AKs" holds
      every suited AK twice. */
  lemma ParseConcat(e: Engine, a: string, b: string)
    ensures Parse(e, a + "," + b) == Parse(e, a) + Parse(e, b)
  {
    ParseTokens(e, a + "," + b);
    ParseTokens(e, a);
    ParseTokens(e, b);
    SplitConcat(a, b, ',');
    FlatMapAppend(Split(a, ','), Split(b, ','), (part: string) => ExpandToken(e, Strip(part)));
  }

  /** A text without commas is one token. */
  lemma ParseOneToken(e: Engine, t: string)
    requires ',' !in t
    ensures Parse(e, t) == ExpandToken(e, Strip(t))
  {
    if t == [] {
      assert Strip(t) == [];
      TokenSkipped(e, []);
    } else {
      SplitNoSep(t, ',');
      FlatMapOne(t, (part: string) => ExpandToken(e, Strip(part)));
    }
  }

  /** Empty, blank and comma-only texts parse to the empty range. */
  lemma ParseBlank(e: Engine, text: string)
    requires forall i :: 0 <= i < |text| ==> IsSpace(text[i]) || text[i] == ','
    ensures Parse(e, text) == []
  {
    BlankPieces(e, text);
    ParseTokens(e, text);
  }

  /** The pieces of such a text all expand to nothing. */
  lemma BlankPieces(e: Engine, text: string)
    requires forall i :: 0 <= i < |text| ==> IsSpace(text[i]) || text[i] == ','
    ensures ExpandAll(e, Split(text, ',')) == []
  {
    SplitBlank(text, ',');
    ExpandAllBlank(e, Split(text, ','));
  }

  lemma ExpandAllBlank(e: Engine, parts: seq<string>)
    requires AllBlank(parts)
    ensures ExpandAll(e, parts) == []
  {
    var f := (part: string) => ExpandToken(e, Strip(part));
    forall k | 0 <= k < |parts| ensures f(parts[k]) == [] {
      StripBlank(parts[k]);
    }
    FlatMapEmpty(parts, f);
  }

  /** Rank letters are never commas, white space, '1' or a flag letter. */
  lemma RankLetters(c: char)
    requires c in RANKS
    ensures c != ',' && c != '1' && c != '0' && !IsSpace(c) && c != '+' && c != 's' && c != 'o'
  {
  }

  /** A token that starts with two ranks and has no '1' expands by the
      shorthand rules: its second character is no suit letter, so it is not
      of exact-combo shape. */
  lemma ExpandShorthand(e: Engine, p: string)
    requires RankPrefix(p) && '1' !in p
    ensures ExpandToken(e, p) == Shorthand(p)
  {
    ReplaceTenRemovesTens(p);
    assert p[1] !in SUITS by {
      assert forall x :: x in RANKS ==> x !in SUITS;
    }
  }

  /** A token reads the same whether its tens are spelled "10" or "T":
      expansion starts by replacing every "10", and replacing again changes
      nothing. */
  lemma ExpandTokenTens(e: Engine, part: string)
    ensures ExpandToken(e, part) == ExpandToken(e, ReplaceTen(part))
  {
    var p := ReplaceTen(part);
    ReplaceTenIdempotent(part);
    if |part| < 2 {
      ReplaceTenKeeps(part);
    }
  }

  /** A string with no white space at either end is its own `strip()`. */
  lemma StripTrimmed(t: string)
    requires t != [] && !IsSpace(t[0]) && !IsSpace(t[|t| - 1])
    ensures Strip(t) == t
  {
    StripPadded([], t);
    assert [] + t == t;
  }

  /** A comma-free, '1'-free token that starts with two ranks and does not
      end in white space parses as shorthand. */
  lemma ShorthandParse(e: Engine, t: string)
    requires RankPrefix(t) && ',' !in t && '1' !in t && !IsSpace(t[|t| - 1])
    ensures Parse(e, t) == Shorthand(t)
  {
    RankLetters(t[0]);
    StripTrimmed(t);
    ParseOneToken(e, t);
    ExpandShorthand(e, t);
  }

  /** The pair token of rank `r`, with or without `+`. */
  function PairToken(r: Rank, plus: bool): string {
    [RANKS[r], RANKS[r]] + (if plus then "+" else "")
  }

  /** The non-pair token of ranks `a` and `b` in that order, with the
      chosen flags. */
  function NonPairToken(a: Rank, b: Rank, suited: bool, offsuit: bool, plus: bool): string {
    [RANKS[a], RANKS[b]] + FlagSuffix(suited, offsuit, plus)
  }

  /** The flag letters of a non-pair token, after its two rank letters. */
  function FlagSuffix(suited: bool, offsuit: bool, plus: bool): string {
    (if suited then "s" else "") + (if offsuit then "o" else "") + (if plus then "+" else "")
  }

  lemma PairTokenShape(r: Rank, plus: bool)
    ensures var t := PairToken(r, plus);
      && RankPrefix(t) && ',' !in t && '1' !in t && !IsSpace(t[|t| - 1])
      && RankOf(t[0]) == Some(r) && RankOf(t[1]) == Some(r) && FlagsOf(t).plus == plus
  {
    AlphabetsDistinct();
    RankLetters(RANKS[r]);
  }

  lemma NonPairTokenShape(a: Rank, b: Rank, suited: bool, offsuit: bool, plus: bool)
    ensures var t := NonPairToken(a, b, suited, offsuit, plus);
      && RankPrefix(t) && ',' !in t && '1' !in t && !IsSpace(t[|t| - 1])
      && RankOf(t[0]) == Some(a) && RankOf(t[1]) == Some(b)
      && FlagsOf(t) == Flags(plus, suited, offsuit)
  {
    NonPairTokenRanks(a, b, suited, offsuit, plus);
    NonPairTokenFlags(a, b, suited, offsuit, plus);
    NonPairTokenEnd(a, b, suited, offsuit, plus);
  }

  lemma NonPairTokenRanks(a: Rank, b: Rank, suited: bool, offsuit: bool, plus: bool)
    ensures var t := NonPairToken(a, b, suited, offsuit, plus);
      RankPrefix(t) && RankOf(t[0]) == Some(a) && RankOf(t[1]) == Some(b)
  {
    RankOfLetter(a);
    RankOfLetter(b);
    TwoRanksThen(RANKS[a], RANKS[b], FlagSuffix(suited, offsuit, plus));
  }

  lemma NonPairTokenFlags(a: Rank, b: Rank, suited: bool, offsuit: bool, plus: bool)
    ensures var t := NonPairToken(a, b, suited, offsuit, plus);
      ',' !in t && '1' !in t && FlagsOf(t) == Flags(plus, suited, offsuit)
  {
    FlagSuffixChars(suited, offsuit, plus);
    TwoRanksThen(RANKS[a], RANKS[b], FlagSuffix(suited, offsuit, plus));
  }

  lemma NonPairTokenEnd(a: Rank, b: Rank, suited: bool, offsuit: bool, plus: bool)
    ensures var t := NonPairToken(a, b, suited, offsuit, plus);
      !IsSpace(t[|t| - 1])
  {
    FlagSuffixChars(suited, offsuit, plus);
    TwoRanksThen(RANKS[a], RANKS[b], FlagSuffix(suited, offsuit, plus));
    RankLetters(RANKS[b]);
  }

  /** The characters the flag letters of a token contribute. */
  lemma FlagSuffixChars(suited: bool, offsuit: bool, plus: bool)
    ensures var u := FlagSuffix(suited, offsuit, plus);
      && ('+' in u <==> plus) && ('s' in u <==> suited) && ('o' in u <==> offsuit)
      && ',' !in u && '1' !in u && (u != [] ==> !IsSpace(u[|u| - 1]))
  {
  }

  /** Two rank letters in front of a suffix: the token starts with ranks and
      has the suffix's punctuation and flag letters. */
  lemma TwoRanksThen(x: char, y: char, u: string)
    requires x in RANKS && y in RANKS
    ensures var t := [x, y] + u;
      && RankPrefix(t) && t[0] == x && t[1] == y
      && (forall c :: c == '+' || c == 's' || c == 'o' || c == ',' || c == '1' ==> (c in t <==> c in u))
      && t[|t| - 1] == (if u == [] then y else u[|u| - 1])
  {
    RankLetters(x);
    RankLetters(y);
    var t := [x, y] + u;
    forall c | c == '+' || c == 's' || c == 'o' || c == ',' || c == '1' ensures c in t <==> c in u {
      if c in t {
        var i :| 0 <= i < |t| && t[i] == c;
        assert i >= 2 && u[i - 2] == c;
      }
      if c in u {
        var i :| 0 <= i < |u| && u[i] == c;
        assert t[i + 2] == c;
      }
    }
  }

  /** A pair token stands for 6 combos, or with `+` 6 for every rank
      from it up to the ace, each once. */
  lemma PairTokenCount(e: Engine, r: Rank, plus: bool)
    ensures |Parse(e, PairToken(r, plus))| == 6 * (if plus then 13 - r else 1)
    ensures NoDup(Parse(e, PairToken(r, plus)))
  {
    var t := PairToken(r, plus);
    PairTokenShape(r, plus);
    ShorthandParse(e, t);
    ShorthandCount(t);
  }

  /** A pair token stands for the two-suit combos of its rank, or with `+`
      of every rank from it up to the ace. */
  lemma PairTokenContents(e: Engine, r: Rank, plus: bool)
    ensures PairRange(Parse(e, PairToken(r, plus)), r, if plus then 12 else r)
  {
    PairShorthand(r, plus);
    PairTokenParse(e, r, plus);
  }

  /** `rs` holds exactly the two-suit pairs of the ranks from `lo` to
      `top`. */
  ghost predicate PairRange(rs: Range, lo: int, top: int) {
    forall c :: c in rs <==> PairMember(c, lo, top)
  }

  lemma PairTokenParse(e: Engine, r: Rank, plus: bool)
    ensures Parse(e, PairToken(r, plus)) == Shorthand(PairToken(r, plus))
  {
    PairTokenShape(r, plus);
    ShorthandParse(e, PairToken(r, plus));
  }

  lemma PairShorthand(r: Rank, plus: bool)
    ensures PairRange(Shorthand(PairToken(r, plus)), r, if plus then 12 else r)
  {
    var t := PairToken(r, plus);
    PairTokenShape(r, plus);
    ShorthandContents(t);
    forall c ensures c in Shorthand(t) <==> PairMember(c, r, if plus then 12 else r) {
      assert c in Shorthand(t) <==> ShorthandMember(t, c);
    }
  }

  /** The size formula, evaluated on a non-pair token. */
  lemma NonPairTokenSize(a: Rank, b: Rank, suited: bool, offsuit: bool, plus: bool)
    requires a != b
    ensures RankPrefix(NonPairToken(a, b, suited, offsuit, plus))
    ensures ShorthandSize(NonPairToken(a, b, suited, offsuit, plus))
            == (if plus then Max(a, b) - Min(a, b) else 1) * PerKicker(suited, offsuit)
  {
    var t := NonPairToken(a, b, suited, offsuit, plus);
    NonPairTokenRanks(a, b, suited, offsuit, plus);
    NonPairTokenFlags(a, b, suited, offsuit, plus);
    assert RankOf(t[0]).value == a && RankOf(t[1]).value == b;
  }

  /** A non-pair token stands for 4, 12 or 16 combos per kicker, each once;
      with `+` the kicker runs from the lower rank to one below the top. */
  lemma NonPairTokenCount(e: Engine, a: Rank, b: Rank, suited: bool, offsuit: bool, plus: bool)
    requires a != b
    ensures |Parse(e, NonPairToken(a, b, suited, offsuit, plus))|
            == (if plus then Max(a, b) - Min(a, b) else 1) * PerKicker(suited, offsuit)
    ensures NoDup(Parse(e, NonPairToken(a, b, suited, offsuit, plus)))
  {
    var t := NonPairToken(a, b, suited, offsuit, plus);
    NonPairTokenShape(a, b, suited, offsuit, plus);
    ShorthandParse(e, t);
    ShorthandCount(t);
    NonPairTokenSize(a, b, suited, offsuit, plus);
  }

  /** The membership rule, evaluated on a non-pair token. */
  lemma NonPairTokenMember(a: Rank, b: Rank, suited: bool, offsuit: bool, plus: bool, c: Combo)
    requires a != b
    ensures RankPrefix(NonPairToken(a, b, suited, offsuit, plus))
    ensures var hi: Rank, lo := Max(a, b), Min(a, b);
      (ShorthandMember(NonPairToken(a, b, suited, offsuit, plus), c)
       <==> KickerMember(c, hi, lo, if plus then hi - 1 else lo, suited, offsuit))
  {
    NonPairTokenShape(a, b, suited, offsuit, plus);
  }

  /** `r` holds exactly the combos of the kicker run under `hi` from `lo`
      to `topK` in the suit classes the flags select. */
  ghost predicate KickerRange(r: Range, hi: Rank, lo: int, topK: int, suited: bool, offsuit: bool) {
    forall c :: c in r <==> KickerMember(c, hi, lo, topK, suited, offsuit)
  }

  /** A non-pair token keeps the higher rank on top whatever order it is
      written in, restricted to the suit classes its flags select. */
  lemma NonPairTokenContents(e: Engine, a: Rank, b: Rank, suited: bool, offsuit: bool, plus: bool)
    requires a != b
    ensures var hi: Rank, lo := Max(a, b), Min(a, b);
      KickerRange(Parse(e, NonPairToken(a, b, suited, offsuit, plus)), hi, lo, if plus then hi - 1 else lo, suited, offsuit)
  {
    NonPairShorthand(a, b, suited, offsuit, plus);
    NonPairTokenParse(e, a, b, suited, offsuit, plus);
  }

  lemma NonPairTokenParse(e: Engine, a: Rank, b: Rank, suited: bool, offsuit: bool, plus: bool)
    ensures Parse(e, NonPairToken(a, b, suited, offsuit, plus)) == Shorthand(NonPairToken(a, b, suited, offsuit, plus))
  {
    NonPairTokenShape(a, b, suited, offsuit, plus);
    ShorthandParse(e, NonPairToken(a, b, suited, offsuit, plus));
  }

  lemma NonPairShorthand(a: Rank, b: Rank, suited: bool, offsuit: bool, plus: bool)
    requires a != b
    ensures var hi: Rank, lo := Max(a, b), Min(a, b);
      KickerRange(Shorthand(NonPairToken(a, b, suited, offsuit, plus)), hi, lo, if plus then hi - 1 else lo, suited, offsuit)
  {
    var t := NonPairToken(a, b, suited, offsuit, plus);
    NonPairTokenShape(a, b, suited, offsuit, plus);
    ShorthandContents(t);
    forall c ensures c in Shorthand(t) <==> KickerMember(c, Max(a, b), Min(a, b), if plus then Max(a, b) - 1 else Min(a, b), suited, offsuit) {
      NonPairTokenMember(a, b, suited, offsuit, plus, c);
    }
  }

  /** White space in front of a single token does not change what it
      parses to. */
  lemma ParsePadded(e: Engine, pad: string, t: string)
    requires Blank(pad) && ',' !in pad && ',' !in t
    requires t != [] && !IsSpace(t[0]) && !IsSpace(t[|t| - 1])
    ensures Parse(e, pad + t) == Parse(e, t)
  {
    StripPadded(pad, t);
    StripTrimmed(t);
    ParseOneToken(e, pad + t);
    ParseOneToken(e, t);
  }

  /** A single token that holds no '1', does not start with a rank letter
      and is not of exact-combo shape contributes nothing. */
  lemma JunkToken(e: Engine, t: string)
    requires ',' !in t && '1' !in t && t != [] && !IsSpace(t[0]) && !IsSpace(t[|t| - 1])
    requires t[0] !in RANKS && !ExactShape(t)
    ensures Parse(e, t) == []
  {
    StripTrimmed(t);
    ParseOneToken(e, t);
    JunkSkipped(e, t);
  }

  lemma JunkSkipped(e: Engine, t: string)
    requires '1' !in t && t != [] && t[0] !in RANKS && !ExactShape(t)
    ensures ExpandToken(e, t) == []
  {
    ReplaceTenRemovesTens(t);
    TokenSkipped(e, t);
  }

  // ---------------------------------------------------------------------
  // Worked examples
  // ---------------------------------------------------------------------

  /** "AA" is the six pairs of aces. */
  lemma ExampleAces(e: Engine)
    ensures |Parse(e, "AA")| == 6
  {
    assert PairToken(12, false) == "AA";
    PairTokenCount(e, 12, false);
  }

  /** "QQ+" is the 18 pairs of queens, kings and aces. */
  lemma ExampleQueensPlus(e: Engine)
    ensures |Parse(e, "QQ+")| == 18
  {
    assert PairToken(10, true) == "QQ+";
    PairTokenCount(e, 10, true);
  }

  /** "AKs" is the four suited ace-kings. */
  lemma ExampleAceKingSuited(e: Engine)
    ensures |Parse(e, "AKs")| == 4
  {
    assert NonPairToken(12, 11, true, false, false) == "AKs";
    NonPairTokenCount(e, 12, 11, true, false, false);
  }

  /** "AKo" is the twelve offsuit ace-kings. */
  lemma ExampleAceKingOffsuit(e: Engine)
    ensures |Parse(e, "AKo")| == 12
  {
    assert NonPairToken(12, 11, false, true, false) == "AKo";
    NonPairTokenCount(e, 12, 11, false, true, false);
  }

  /** "AK" is all sixteen ace-kings. */
  lemma ExampleAceKingAll(e: Engine)
    ensures |Parse(e, "AK")| == 16
  {
    assert NonPairToken(12, 11, false, false, false) == "AK";
    NonPairTokenCount(e, 12, 11, false, false, false);
  }

  /** A ten may be spelled "10": "A10s" is the suited ace-tens, like "ATs". */
  lemma ExampleAceTenSpelled(e: Engine)
    ensures ExpandToken(e, "A10s") == ExpandToken(e, "ATs")
  {
    ReplaceTenKeeps("s");
    ReplaceTenFirst("A", "s");
    assert "A" + "10" + "s" == "A10s";
    ExpandTokenTens(e, "A10s");
  }

  /** "1010" is the six pairs of tens, like "TT". */
  lemma ExampleTensSpelled(e: Engine)
    ensures ExpandToken(e, "1010") == ExpandToken(e, "TT")
    ensures |ExpandToken(e, "1010")| == 6
  {
    ReplaceTenKeeps([]);
    ReplaceTenFirst([], []);
    ReplaceTenFirst([], "10");
    assert [] + "10" + "10" == "1010";
    ExpandTokenTens(e, "1010");
    assert PairToken(8, false) == "TT";
    PairTokenShape(8, false);
    ExpandShorthand(e, "TT");
    ShorthandCount("TT");
  }

  /** A white-space character in front of a text changes only its first
      token's padding, which `strip()` removes. */
  lemma ParseSpaceFront(e: Engine, w: char, x: string)
    requires IsSpace(w)
    ensures Parse(e, [w] + x) == Parse(e, x)
  {
    if x == [] {
      assert [w] + x == [w];
      ParseBlank(e, [w]);
    } else {
      ParseSpaceFrontNonEmpty(e, w, x);
    }
  }

  lemma ParseSpaceFrontNonEmpty(e: Engine, w: char, x: string)
    requires IsSpace(w) && x != []
    ensures Parse(e, [w] + x) == Parse(e, x)
  {
    var rest := Split(x, ',');
    var parts := Split([w] + x, ',');
    SplitSpaceFront(w, x);
    ParseTokens(e, [w] + x);
    ParseTokens(e, x);
    ExpandAllCons(e, parts);
    ExpandAllCons(e, rest);
    StripSpaceFront(w, rest[0]);
  }

  lemma SplitSpaceFront(w: char, x: string)
    requires IsSpace(w) && x != []
    ensures Split([w] + x, ',') == [[w] + Split(x, ',')[0]] + Split(x, ',')[1..]
  {
    assert ([w] + x)[1..] == x;
  }

  /** The ranges of a list of texts, concatenated in order. */
  function ParseEach(e: Engine, texts: seq<string>): Range {
    FlatMap(texts, (t: string) => Parse(e, t))
  }

  lemma ParseEachCons(e: Engine, texts: seq<string>)
    requires texts != []
    ensures ParseEach(e, texts) == Parse(e, texts[0]) + ParseEach(e, texts[1..])
  {
  }

  /** A ", "-joined list of tokens parses to the concatenation of what each
      token parses to. */
  lemma {:induction false} ParseJoin(e: Engine, texts: seq<string>)
    ensures Parse(e, Join(texts, ", ")) == ParseEach(e, texts)
  {
    if |texts| == 1 {
      assert ParseEach(e, texts) == Parse(e, texts[0]) + ParseEach(e, []) by {
        assert texts[1..] == [];
      }
    } else if |texts| > 1 {
      var tail := Join(texts[1..], ", ");
      assert Join(texts, ", ") == texts[0] + ", " + tail;
      assert ParseEach(e, texts) == Parse(e, texts[0]) + ParseEach(e, texts[1..]);
      ParseJoin(e, texts[1..]);
      CommaSpace(texts[0], tail);
      ParseConcat(e, texts[0], " " + tail);
      ParseSpaceFront(e, ' ', tail);
    }
  }

  /** A token repeated after ", " is listed twice: duplicates are kept. */
  lemma RepeatedToken(e: Engine, t: string)
    requires ',' !in t && t != [] && !IsSpace(t[0]) && !IsSpace(t[|t| - 1])
    ensures Parse(e, t + ", " + t) == Parse(e, t) + Parse(e, t)
  {
    var u := " " + t;
    assert Blank(" ") && ',' !in " ";
    ParsePadded(e, " ", t);
    CommaSpace(t, t);
    ParseConcat(e, t, u);
  }

  lemma CommaSpace(a: string, b: string)
    ensures a + ", " + b == a + "," + (" " + b)
  {
  }

  /** "AKs, AKs" lists every suited ace-king twice. */
  lemma ExampleNoDedup(e: Engine)
    ensures Parse(e, "AKs, AKs") == Parse(e, "AKs") + Parse(e, "AKs")
  {
    assert "AKs" + ", " + "AKs" == "AKs, AKs";
    RepeatedToken(e, "AKs");
  }

  /** An unknown word is an empty range. */
  lemma ExampleJunk(e: Engine)
    ensures Parse(e, "bogus!!") == []
  {
    assert 'b' !in RANKS;
    JunkToken(e, "bogus!!");
  }
}
