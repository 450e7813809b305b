/** The Monte-Carlo equity estimator (`calculate_equity`) with its
    randomness and its hand evaluator passed in.

    Each iteration picks a hero combo and a villain combo
    (`random.choice`), discards the trial when the board and the two combos
    do not consist of `|board| + 4` different cards, deals the missing board
    cards from the rest of the deck (`random.sample`), and scores both
    hands.  eval7 ranks a higher score as the stronger hand, treys a lower
    one.  The estimate is `(wins + ties / 2) / iterations * 100`.

    A `Draw` holds the random choices of one iteration: the indices of the
    two combos (taken modulo the range size, so every index stands for some
    combo) and the picks of the runout sampler.  The number of iterations is
    the number of draws. */
module Equity {
  import opened Seqs
  import opened Cards
  import opened RangeParser

  /** The random choices of one iteration. */
  datatype Draw = Draw(heroPick: nat, villainPick: nat, runPicks: seq<nat>)

  /** The hand evaluator: a score for two hole cards on a board of up to
      five cards.  eval7 and treys are not part of this model. */
  type Evaluator = (seq<Card>, seq<Card>) -> int

  datatype Outcome = Win | Tie | Loss | Discarded

  /** `random.sample(pool, n)` driven by explicit picks: each step takes
      the element at `pick % |pool|` out of the pool; a missing pick reads
      as 0. */
  function Sample<T>(pool: seq<T>, n: nat, picks: seq<nat>): (r: seq<T>)
    requires n <= |pool|
    ensures |r| == n
    ensures multiset(r) <= multiset(pool)
    decreases n
  {
    if n == 0 then []
    else
      var k := (if picks == [] then 0 else picks[0]) % |pool|;
      MultisetRemoveAt(pool, k);
      [pool[k]] + Sample(pool[..k] + pool[k + 1..], n - 1, if picks == [] then [] else picks[1..])
  }

  /** A sample from a duplicate-free pool has no duplicates and only pool
      elements. */
  lemma SampleFromPool<T>(pool: seq<T>, n: nat, picks: seq<nat>)
    requires n <= |pool| && NoDup(pool)
    ensures NoDup(Sample(pool, n, picks))
    ensures forall x :: x in Sample(pool, n, picks) ==> x in pool
  {
    var r := Sample(pool, n, picks);
    SubMultisetNoDup(r, pool);
    forall x | x in r ensures x in pool {
      assert x in multiset(r);
    }
  }

  /** The two hole cards of a combo. */
  function Hole(c: Combo): seq<Card> {
    [c.first, c.second]
  }

  /** `set(board) | set(hh) | set(vh)`. */
  function Used(board: seq<Card>, hh: Combo, vh: Combo): set<Card> {
    Elems(board + Hole(hh) + Hole(vh))
  }

  /** The discard test `len(used) != len(board) + 4`. */
  predicate Conflict(board: seq<Card>, hh: Combo, vh: Combo) {
    |Used(board, hh, vh)| != |board| + 4
  }

  /** `need = max(0, 5 - len(board))`: the board cards still to deal. */
  function Need(board: seq<Card>): nat {
    if 5 - |board| < 0 then 0 else 5 - |board|
  }

  /** The deck the estimator deals from: eval7's deck has the board cards
      removed one by one first; treys' is the full deck. */
  function EstimatorDeck(e: Engine, board: seq<Card>): seq<Card> {
    match e
    case Eval7 => RemoveEach(FullDeck(Eval7), board)
    case Treys => FullDeck(Treys)
  }

  /** `rem = [c for c in deck if c not in used]`. */
  function Remaining(e: Engine, board: seq<Card>, used: set<Card>): seq<Card> {
    Filter(EstimatorDeck(e, board), c => c !in used)
  }

  /** Whether score `hs` beats score `vs`: higher wins for eval7, lower
      wins for treys. */
  predicate Beats(e: Engine, hs: int, vs: int) {
    match e
    case Eval7 => hs > vs
    case Treys => hs < vs
  }

  /** The hero combo a draw picks. */
  function HeroHand(hero: Range, d: Draw): Combo
    requires hero != []
  {
    hero[d.heroPick % |hero|]
  }

  /** The villain combo a draw picks. */
  function VillainHand(villain: Range, d: Draw): Combo
    requires villain != []
  {
    villain[d.villainPick % |villain|]
  }

  /** Dealing the runout and comparing the two scores; a showdown is
      never a discard. */
  function Showdown(e: Engine, board: seq<Card>, hh: Combo, vh: Combo, rem: seq<Card>, eval: Evaluator, picks: seq<nat>): (o: Outcome)
    requires Need(board) <= |rem|
    ensures o != Discarded
  {
    var run := Sample(rem, Need(board), picks);
    var hs, vs := eval(Hole(hh), board + run), eval(Hole(vh), board + run);
    if Beats(e, hs, vs) then Win
    else if hs == vs then Tie
    else Loss
  }

  /** One iteration of the estimator's loop. */
  function Trial(e: Engine, hero: Range, villain: Range, board: seq<Card>, eval: Evaluator, d: Draw): Outcome
    requires hero != [] && villain != []
  {
    var hh, vh := HeroHand(hero, d), VillainHand(villain, d);
    if Conflict(board, hh, vh) then Discarded
    else
      var rem := Remaining(e, board, Used(board, hh, vh));
      if |rem| < Need(board) then Discarded
      else Showdown(e, board, hh, vh, rem, eval, d.runPicks)
  }

  /** The outcomes of all iterations, in order. */
  function Outcomes(e: Engine, hero: Range, villain: Range, board: seq<Card>, eval: Evaluator, draws: seq<Draw>): (os: seq<Outcome>)
    requires hero != [] && villain != []
    ensures |os| == |draws|
  {
    if draws == [] then []
    else [Trial(e, hero, villain, board, eval, draws[0])] + Outcomes(e, hero, villain, board, eval, draws[1..])
  }

  /** Iteration `i` has the outcome of the trial on draw `i`. */
  lemma {:induction false} OutcomesAt(e: Engine, hero: Range, villain: Range, board: seq<Card>, eval: Evaluator, draws: seq<Draw>)
    requires hero != [] && villain != []
    ensures var os := Outcomes(e, hero, villain, board, eval, draws);
      forall i :: 0 <= i < |draws| ==> os[i] == Trial(e, hero, villain, board, eval, draws[i])
  {
    if draws != [] {
      OutcomesAt(e, hero, villain, board, eval, draws[1..]);
    }
  }

  /** How many of the outcomes are `k`. */
  function CountOf(os: seq<Outcome>, k: Outcome): (n: nat)
    ensures n <= |os|
  {
    if os == [] then 0 else (if os[0] == k then 1 else 0) + CountOf(os[1..], k)
  }

  /** Every outcome is one of the four kinds. */
  lemma {:induction false} CountsPartition(os: seq<Outcome>)
    ensures CountOf(os, Win) + CountOf(os, Tie) + CountOf(os, Loss) + CountOf(os, Discarded) == |os|
  {
    if os != [] {
      CountsPartition(os[1..]);
    }
  }

  datatype Tally = Tally(wins: nat, ties: nat)

  /** The win and tie counters `h_wins` and `ties`. */
  function TallyOf(os: seq<Outcome>): (t: Tally)
    ensures t.wins == CountOf(os, Win) && t.ties == CountOf(os, Tie)
    ensures t.wins + t.ties <= |os|
  {
    if os == [] then Tally(0, 0)
    else
      var rest := TallyOf(os[1..]);
      CountsPartition(os[1..]);
      match os[0]
      case Win => Tally(rest.wins + 1, rest.ties)
      case Tie => Tally(rest.wins, rest.ties + 1)
      case _ => rest
  }

  /** `calculate_equity(hero, villain, board, len(draws))`.  With both
      ranges non-empty and no draws the source divides by zero, so that
      case is excluded. */
  function Estimate(e: Engine, hero: Range, villain: Range, board: seq<Card>, eval: Evaluator, draws: seq<Draw>): (r: real)
    requires hero == [] || villain == [] || draws != []
    ensures 0.0 <= r <= 100.0
    ensures hero == [] || villain == [] ==> r == 0.0
  {
    if hero == [] || villain == [] then 0.0
    else
      var t := TallyOf(Outcomes(e, hero, villain, board, eval, draws));
      Share(t.wins, t.ties, |draws|)
  }

  /** `(h_wins + ties / 2) / iterations * 100`. */
  function Share(wins: nat, ties: nat, n: nat): (r: real)
    requires n > 0 && wins + ties <= n
    ensures 0.0 <= r <= 100.0
  {
    var score := wins as real + ties as real / 2.0;
    RatioBound(score, n as real);
    score / n as real * 100.0
  }

  lemma RatioBound(x: real, n: real)
    requires 0.0 <= x <= n && n > 0.0
    ensures 0.0 <= x / n * 100.0 <= 100.0
  {
    assert x / n <= 1.0;
  }

  // ---------------------------------------------------------------------
  // The discard rule
  // ---------------------------------------------------------------------

  /** A trial is discarded exactly when the board and the two hole-card
      pairs, listed together, repeat a card. */
  lemma ConflictIff(board: seq<Card>, hh: Combo, vh: Combo)
    ensures Conflict(board, hh, vh) <==> !NoDup(board + Hole(hh) + Hole(vh))
  {
    ElemsCard(board + Hole(hh) + Hole(vh));
  }

  /** Spelled out: no conflict means a board without repeats, four
      different hole cards, and none of them on the board. */
  lemma ConflictCases(board: seq<Card>, hh: Combo, vh: Combo)
    ensures !Conflict(board, hh, vh) <==>
      && NoDup(board)
      && NoDup(Hole(hh) + Hole(vh))
      && forall c :: c in Hole(hh) + Hole(vh) ==> c !in board
  {
    ConflictIff(board, hh, vh);
    assert board + Hole(hh) + Hole(vh) == board + (Hole(hh) + Hole(vh));
    NoDupAppendIff(board, Hole(hh) + Hole(vh));
  }

  /** The same combo for both players always conflicts. */
  lemma SameHandConflict(board: seq<Card>, h: Combo)
    ensures Conflict(board, h, h)
  {
    ConflictCases(board, h, h);
    assert (Hole(h) + Hole(h))[0] == (Hole(h) + Hole(h))[2];
  }

  /** A hole card on the board always conflicts. */
  lemma BoardCardConflict(board: seq<Card>, hh: Combo, vh: Combo)
    requires hh.first in board || hh.second in board || vh.first in board || vh.second in board
    ensures Conflict(board, hh, vh)
  {
    ConflictCases(board, hh, vh);
    var h := Hole(hh) + Hole(vh);
    assert h[0] == hh.first && h[1] == hh.second && h[2] == vh.first && h[3] == vh.second;
  }

  /** The estimator's deck holds every card once, apart from the board
      cards eval7 removes first. */
  lemma EstimatorDeckCards(e: Engine, board: seq<Card>)
    ensures NoDup(EstimatorDeck(e, board))
    ensures forall c :: c in EstimatorDeck(e, board) <==> (e == Treys || c !in board)
  {
    FullDeckComplete(e);
    if e == Eval7 {
      RemoveEachElems(FullDeck(Eval7), board);
    }
  }

  /** A list of cards without repeats that holds exactly the cards
      outside `used` has `52 - |used|` of them. */
  lemma Complement(s: seq<Card>, used: set<Card>)
    requires NoDup(s) && forall c :: c in s <==> c !in used
    ensures |s| == 52 - |used|
  {
    var all := AllCards();
    assert Elems(s) == all - used;
    ElemsCard(s);
    assert all == (all - used) + used;
    assert |all| == |all - used| + |used|;
  }

  /** Without a conflict the remaining deck is every card not in use, once
      each: `48 - |board|` cards. */
  lemma RemainingCards(e: Engine, board: seq<Card>, hh: Combo, vh: Combo)
    requires !Conflict(board, hh, vh)
    ensures var rem := Remaining(e, board, Used(board, hh, vh));
      && NoDup(rem)
      && (forall c :: c in rem <==> c !in Used(board, hh, vh))
      && |rem| == 48 - |board|
  {
    var used := Used(board, hh, vh);
    var rem := Remaining(e, board, used);
    RemainingElems(e, board, used);
    Complement(rem, used);
  }

  /** The remaining deck, for any set of used cards that covers the board. */
  lemma RemainingElems(e: Engine, board: seq<Card>, used: set<Card>)
    requires forall c :: c in board ==> c in used
    ensures NoDup(Remaining(e, board, used))
    ensures forall c :: c in Remaining(e, board, used) <==> c !in used
  {
    var deck := EstimatorDeck(e, board);
    EstimatorDeckCards(e, board);
    FilterNoDup(deck, c => c !in used);
    FilterElems(deck, c => c !in used);
  }

  /** The "not enough cards left" exit of the loop is dead: whenever the
      conflict test passes, the remaining deck covers the cards still to
      deal. */
  lemma NeverShort(e: Engine, board: seq<Card>, hh: Combo, vh: Combo)
    requires !Conflict(board, hh, vh)
    ensures |Remaining(e, board, Used(board, hh, vh))| >= Need(board)
  {
    RemainingCards(e, board, hh, vh);
  }

  /** A trial is discarded exactly when its two combos conflict with each
      other or with the board. */
  lemma TrialDiscardIff(e: Engine, hero: Range, villain: Range, board: seq<Card>, eval: Evaluator, d: Draw)
    requires hero != [] && villain != []
    ensures Trial(e, hero, villain, board, eval, d) == Discarded
            <==> Conflict(board, HeroHand(hero, d), VillainHand(villain, d))
  {
    var hh, vh := HeroHand(hero, d), VillainHand(villain, d);
    if !Conflict(board, hh, vh) {
      NeverShort(e, board, hh, vh);
    }
  }

  /** A trial that is not discarded scores on a legal deal: the board is
      filled up to five cards (or kept when it has more), and the board,
      the dealt cards and the four hole cards are all different. */
  lemma TrialDeal(e: Engine, board: seq<Card>, hh: Combo, vh: Combo, picks: seq<nat>)
    requires !Conflict(board, hh, vh)
    ensures var rem := Remaining(e, board, Used(board, hh, vh));
      Need(board) <= |rem| &&
      var run := Sample(rem, Need(board), picks);
      && |board + run| == Max(|board|, 5)
      && NoDup(board + Hole(hh) + Hole(vh) + run)
  {
    var used := Used(board, hh, vh);
    var rem := Remaining(e, board, used);
    RemainingCards(e, board, hh, vh);
    var run := Sample(rem, Need(board), picks);
    SampleFromPool(rem, Need(board), picks);
    ConflictIff(board, hh, vh);
    NoDupAppendIff(board + Hole(hh) + Hole(vh), run);
  }

  // ---------------------------------------------------------------------
  // Symmetry between the two players
  // ---------------------------------------------------------------------

  /** The outcome as seen from the other seat. */
  function Flip(o: Outcome): Outcome {
    match o
    case Win => Loss
    case Loss => Win
    case _ => o
  }

  /** The same random choices with the two seats exchanged. */
  function SwapSeats(d: Draw): Draw {
    Draw(d.villainPick, d.heroPick, d.runPicks)
  }

  /** Exchanging the two ranges (and the choices made from them) turns
      every win into a loss and back, and keeps ties and discards. */
  lemma TrialMirror(e: Engine, hero: Range, villain: Range, board: seq<Card>, eval: Evaluator, d: Draw)
    requires hero != [] && villain != []
    ensures Trial(e, villain, hero, board, eval, SwapSeats(d)) == Flip(Trial(e, hero, villain, board, eval, d))
  {
    var hh, vh := HeroHand(hero, d), VillainHand(villain, d);
    assert HeroHand(villain, SwapSeats(d)) == vh;
    assert VillainHand(hero, SwapSeats(d)) == hh;
    assert Used(board, vh, hh) == Used(board, hh, vh) by {
      assert forall c :: c in board + Hole(vh) + Hole(hh) <==> c in board + Hole(hh) + Hole(vh);
    }
    var rem := Remaining(e, board, Used(board, hh, vh));
    if !Conflict(board, hh, vh) && Need(board) <= |rem| {
      ShowdownMirror(e, board, hh, vh, rem, eval, d.runPicks);
    }
  }

  /** The same runout seen from the other seat: a win becomes a loss and
      back, and a tie stays a tie. */
  lemma ShowdownMirror(e: Engine, board: seq<Card>, hh: Combo, vh: Combo, rem: seq<Card>, eval: Evaluator, picks: seq<nat>)
    requires Need(board) <= |rem|
    ensures Showdown(e, board, vh, hh, rem, eval, picks) == Flip(Showdown(e, board, hh, vh, rem, eval, picks))
  {
  }

  /** Exchanging the seats in every draw. */
  function SwapAll(draws: seq<Draw>): (r: seq<Draw>)
    ensures |r| == |draws| && forall i :: 0 <= i < |draws| ==> r[i] == SwapSeats(draws[i])
  {
    seq(|draws|, i requires 0 <= i < |draws| => SwapSeats(draws[i]))
  }

  /** Flipping every outcome exchanges the win and loss counts. */
  lemma {:induction false} CountFlip(os: seq<Outcome>, fs: seq<Outcome>)
    requires |fs| == |os| && forall i :: 0 <= i < |os| ==> fs[i] == Flip(os[i])
    ensures CountOf(fs, Win) == CountOf(os, Loss)
    ensures CountOf(fs, Tie) == CountOf(os, Tie)
  {
    if os != [] {
      CountFlip(os[1..], fs[1..]);
    }
  }

  /** An outcome that never occurs is counted zero times. */
  lemma {:induction false} CountAbsent(os: seq<Outcome>, k: Outcome)
    requires forall i :: 0 <= i < |os| ==> os[i] != k
    ensures CountOf(os, k) == 0
  {
    if os != [] {
      CountAbsent(os[1..], k);
    }
  }

  /** The number of iterations whose outcome is `k`. */
  function Iterations(e: Engine, hero: Range, villain: Range, board: seq<Card>, eval: Evaluator, draws: seq<Draw>, k: Outcome): nat
    requires hero != [] && villain != []
  {
    CountOf(Outcomes(e, hero, villain, board, eval, draws), k)
  }

  /** Every iteration is a win, a tie, a loss or a discard. */
  lemma {:induction false} IterationsPartition(e: Engine, hero: Range, villain: Range, board: seq<Card>, eval: Evaluator, draws: seq<Draw>)
    requires hero != [] && villain != []
    ensures Iterations(e, hero, villain, board, eval, draws, Win) + Iterations(e, hero, villain, board, eval, draws, Tie)
      + Iterations(e, hero, villain, board, eval, draws, Loss) + Iterations(e, hero, villain, board, eval, draws, Discarded)
      == |draws|
  {
    CountsPartition(Outcomes(e, hero, villain, board, eval, draws));
  }

  /** The estimate in terms of the outcome counts. */
  lemma {:induction false} EstimateCounts(e: Engine, hero: Range, villain: Range, board: seq<Card>, eval: Evaluator, draws: seq<Draw>)
    requires hero != [] && villain != [] && draws != []
    ensures Iterations(e, hero, villain, board, eval, draws, Win) + Iterations(e, hero, villain, board, eval, draws, Tie) <= |draws|
    ensures Estimate(e, hero, villain, board, eval, draws)
      == Share(Iterations(e, hero, villain, board, eval, draws, Win), Iterations(e, hero, villain, board, eval, draws, Tie), |draws|)
  {
    var t := TallyOf(Outcomes(e, hero, villain, board, eval, draws));
    assert Estimate(e, hero, villain, board, eval, draws) == Share(t.wins, t.ties, |draws|);
  }

  /** With the seats exchanged, the wins are the other seat's losses and
      the ties are the same. */
  lemma {:induction false} OutcomesMirror(e: Engine, hero: Range, villain: Range, board: seq<Card>, eval: Evaluator, draws: seq<Draw>)
    requires hero != [] && villain != []
    ensures Iterations(e, villain, hero, board, eval, SwapAll(draws), Win) == Iterations(e, hero, villain, board, eval, draws, Loss)
    ensures Iterations(e, villain, hero, board, eval, SwapAll(draws), Tie) == Iterations(e, hero, villain, board, eval, draws, Tie)
  {
    var os := Outcomes(e, hero, villain, board, eval, draws);
    var fs := Outcomes(e, villain, hero, board, eval, SwapAll(draws));
    OutcomesAt(e, hero, villain, board, eval, draws);
    OutcomesAt(e, villain, hero, board, eval, SwapAll(draws));
    forall i | 0 <= i < |os| ensures fs[i] == Flip(os[i]) {
      TrialMirror(e, hero, villain, board, eval, draws[i]);
    }
    CountFlip(os, fs);
  }

  /** The other seat's estimate, in terms of this seat's outcome counts. */
  lemma {:induction false} EstimateSwapped(e: Engine, hero: Range, villain: Range, board: seq<Card>, eval: Evaluator, draws: seq<Draw>)
    requires hero != [] && villain != [] && draws != []
    ensures Iterations(e, hero, villain, board, eval, draws, Loss) + Iterations(e, hero, villain, board, eval, draws, Tie) <= |draws|
    ensures Estimate(e, villain, hero, board, eval, SwapAll(draws))
      == Share(Iterations(e, hero, villain, board, eval, draws, Loss), Iterations(e, hero, villain, board, eval, draws, Tie), |draws|)
  {
    OutcomesMirror(e, hero, villain, board, eval, draws);
    EstimateCounts(e, villain, hero, board, eval, SwapAll(draws));
  }

  /** The estimates of the two seats, on the same random choices, add up to
      100 less the share of discarded trials: exactly 100 when no trial is
      discarded. */
  lemma {:induction false} EstimateMirror(e: Engine, hero: Range, villain: Range, board: seq<Card>, eval: Evaluator, draws: seq<Draw>)
    requires hero != [] && villain != [] && draws != []
    ensures Estimate(e, hero, villain, board, eval, draws) + Estimate(e, villain, hero, board, eval, SwapAll(draws))
      == (|draws| - Iterations(e, hero, villain, board, eval, draws, Discarded)) as real / |draws| as real * 100.0
  {
    EstimateCounts(e, hero, villain, board, eval, draws);
    EstimateSwapped(e, hero, villain, board, eval, draws);
    SharesSum(e, hero, villain, board, eval, draws);
  }

  /** The share of wins and the share of losses, over the same ties, add
      up to the share of iterations not discarded. */
  lemma {:induction false} SharesSum(e: Engine, hero: Range, villain: Range, board: seq<Card>, eval: Evaluator, draws: seq<Draw>)
    requires hero != [] && villain != [] && draws != []
    ensures var w, t, l := Iterations(e, hero, villain, board, eval, draws, Win), Iterations(e, hero, villain, board, eval, draws, Tie),
                           Iterations(e, hero, villain, board, eval, draws, Loss);
      w + t <= |draws| && l + t <= |draws|
      && Share(w, t, |draws|) + Share(l, t, |draws|)
         == (|draws| - Iterations(e, hero, villain, board, eval, draws, Discarded)) as real / |draws| as real * 100.0
  {
    var w, t, l := Iterations(e, hero, villain, board, eval, draws, Win), Iterations(e, hero, villain, board, eval, draws, Tie),
                   Iterations(e, hero, villain, board, eval, draws, Loss);
    IterationsPartition(e, hero, villain, board, eval, draws);
    MirrorArithmetic(Share(w, t, |draws|), Share(l, t, |draws|), w, t, l, Iterations(e, hero, villain, board, eval, draws, Discarded), |draws|);
  }

  /** The shares of wins and of losses, over the same ties, sum to the
      share of scored trials. */
  lemma {:induction false} MirrorArithmetic(x: real, y: real, w: nat, t: nat, l: nat, d: nat, n: nat)
    requires n > 0 && w + t + l + d == n
    requires x == Share(w, t, n) && y == Share(l, t, n)
    ensures x + y == (n - d) as real / n as real * 100.0
  {
    SumOfRatios(w as real + t as real / 2.0, l as real + t as real / 2.0, n as real);
  }

  lemma SumOfRatios(a: real, b: real, n: real)
    requires n > 0.0
    ensures a / n * 100.0 + b / n * 100.0 == (a + b) / n * 100.0
  {
  }

  /** The same single combo for both players never scores: every trial is
      discarded, so the estimate is 0. */
  lemma SameHandEstimate(e: Engine, h: Combo, board: seq<Card>, eval: Evaluator, draws: seq<Draw>)
    requires draws != []
    ensures Estimate(e, [h], [h], board, eval, draws) == 0.0
  {
    var os := Outcomes(e, [h], [h], board, eval, draws);
    OutcomesAt(e, [h], [h], board, eval, draws);
    forall i | 0 <= i < |os| ensures os[i] == Discarded {
      assert HeroHand([h], draws[i]) == h && VillainHand([h], draws[i]) == h;
      SameHandConflict(board, h);
      TrialDiscardIff(e, [h], [h], board, eval, draws[i]);
    }
    CountAbsent(os, Win);
    CountAbsent(os, Tie);
  }
}
