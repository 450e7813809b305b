/** The per-hand equity spread (`analyze_range_distribution`).

    Up to 100 combos are sampled without replacement from each range (the
    whole range when it is no larger), and each sampled combo's equity is
    estimated as a one-combo range against the whole opposing range. */
module Distribution {
  import opened Seqs
  import opened Cards
  import opened RangeParser
  import opened Equity

  /** `size = 100`. */
  const SAMPLE_SIZE: nat := 100

  /** `random.sample(r, 100) if len(r) > 100 else r`. */
  function SampleHands(r: Range, picks: seq<nat>): (hs: Range)
    ensures |hs| == Min(|r|, SAMPLE_SIZE)
    ensures multiset(hs) <= multiset(r)
    ensures |r| <= SAMPLE_SIZE ==> hs == r
  {
    if |r| > SAMPLE_SIZE then Sample(r, SAMPLE_SIZE, picks) else r
  }

  /** The equity of each sampled combo, alone, against the opposing range;
      `drawsFor(i)` are the random choices of the `i`-th estimate. */
  function HandEquities(hands: Range, opponents: Range, board: seq<Card>, e: Engine, eval: Evaluator,
                        drawsFor: nat -> seq<Draw>): (es: seq<real>)
    requires opponents == [] || forall i :: drawsFor(i) != []
    ensures |es| == |hands|
    ensures forall i :: 0 <= i < |hands| ==>
      && 0.0 <= es[i] <= 100.0
      && es[i] == Estimate(e, [hands[i]], opponents, board, eval, drawsFor(i))
  {
    var es := seq(|hands|, i requires 0 <= i < |hands| => Estimate(e, [hands[i]], opponents, board, eval, drawsFor(i)));
    assert forall i :: 0 <= i < |hands| ==> es[i] == Estimate(e, [hands[i]], opponents, board, eval, drawsFor(i));
    es
  }

  /** The sampled combos and their equities, for both players. */
  datatype Spread = Spread(heroHands: Range, heroEquities: seq<real>, villainHands: Range, villainEquities: seq<real>)

  /** `analyze_range_distribution(hero, villain, board)`. */
  function AnalyzeDistribution(e: Engine, hero: Range, villain: Range, board: seq<Card>, eval: Evaluator,
                               heroPicks: seq<nat>, villainPicks: seq<nat>,
                               heroDraws: nat -> seq<Draw>, villainDraws: nat -> seq<Draw>): (s: Spread)
    requires villain == [] || forall i :: heroDraws(i) != []
    requires hero == [] || forall i :: villainDraws(i) != []
    ensures |s.heroHands| == |s.heroEquities| == Min(|hero|, SAMPLE_SIZE)
    ensures |s.villainHands| == |s.villainEquities| == Min(|villain|, SAMPLE_SIZE)
    ensures multiset(s.heroHands) <= multiset(hero) && multiset(s.villainHands) <= multiset(villain)
    ensures forall i :: 0 <= i < |s.heroHands| ==>
      s.heroEquities[i] == Estimate(e, [s.heroHands[i]], villain, board, eval, heroDraws(i))
    ensures forall i :: 0 <= i < |s.villainHands| ==>
      s.villainEquities[i] == Estimate(e, [s.villainHands[i]], hero, board, eval, villainDraws(i))
  {
    var hs := SampleHands(hero, heroPicks);
    var vs := SampleHands(villain, villainPicks);
    Spread(hs, HandEquities(hs, villain, board, e, eval, heroDraws),
           vs, HandEquities(vs, hero, board, e, eval, villainDraws))
  }

  /** Sampling a range of distinct combos never picks a combo twice, and
      every sampled combo belongs to the range. */
  lemma SampleDistinct(r: Range, picks: seq<nat>)
    requires NoDup(r)
    ensures NoDup(SampleHands(r, picks))
    ensures forall c :: c in SampleHands(r, picks) ==> c in r
  {
    var hs := SampleHands(r, picks);
    SubMultisetNoDup(hs, r);
    forall c | c in hs ensures c in r {
      assert c in multiset(hs);
    }
  }
}
