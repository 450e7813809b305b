/** The next-card table (`analyze_runouts`) and the risk figures computed
    from it in the main script.

    For every card not on the board, in deck order, the table holds the
    equity estimated on the board extended by that card.  With `eq` the
    equity on the current board, a card's loss is `eq - equity`; the bad
    cards are those with a positive loss, the weighted downside risk is the
    sum of their losses, the scare cards are the bad cards losing more than
    5 points, and the safe cards are all the others. */
module Runouts {
  import opened Seqs
  import opened Cards
  import opened RangeParser
  import opened Equity

  /** One row of the table: the next card and the equity with it dealt. */
  datatype Row = Row(card: Card, equity: real)

  /** `[c for c in deck if c not in board]`, in the engine's deck order. */
  function Undealt(e: Engine, board: seq<Card>): seq<Card> {
    Filter(FullDeck(e), c => c !in board)
  }

  /** `analyze_runouts`: one row per undealt card, its equity estimated on
      `board + [c]` with the random choices `drawsFor(c)`. */
  function AnalyzeRunouts(e: Engine, hero: Range, villain: Range, board: seq<Card>, eval: Evaluator,
                          drawsFor: Card -> seq<Draw>): (rows: seq<Row>)
    requires hero == [] || villain == [] || forall c :: drawsFor(c) != []
    ensures |rows| == |Undealt(e, board)|
    ensures forall i :: 0 <= i < |rows| ==>
      && rows[i].card == Undealt(e, board)[i]
      && rows[i].card !in board
      && 0.0 <= rows[i].equity <= 100.0
      && rows[i].equity == Estimate(e, hero, villain, board + [rows[i].card], eval, drawsFor(rows[i].card))
  {
    var deck := Undealt(e, board);
    seq(|deck|, i requires 0 <= i < |deck| =>
      Row(deck[i], Estimate(e, hero, villain, board + [deck[i]], eval, drawsFor(deck[i]))))
  }

  /** The undealt cards are every card off the board, once each: for a
      board without repeats there are `52 - |board|` of them. */
  lemma UndealtCards(e: Engine, board: seq<Card>)
    ensures NoDup(Undealt(e, board))
    ensures forall c :: c in Undealt(e, board) <==> c !in board
    ensures NoDup(board) ==> |Undealt(e, board)| == 52 - |board|
  {
    FullDeckComplete(e);
    FilterNoDup(FullDeck(e), c => c !in board);
    FilterElems(FullDeck(e), c => c !in board);
    if NoDup(board) {
      ElemsCard(board);
      Complement(Undealt(e, board), Elems(board));
    }
  }

  /** The table has one row per card off the board, and each row's board
      is again free of repeats. */
  lemma RunoutRows(e: Engine, hero: Range, villain: Range, board: seq<Card>, eval: Evaluator,
                   drawsFor: Card -> seq<Draw>)
    requires hero == [] || villain == [] || forall c :: drawsFor(c) != []
    requires NoDup(board)
    ensures var rows := AnalyzeRunouts(e, hero, villain, board, eval, drawsFor);
      && |rows| == 52 - |board|
      && (forall c :: c !in board <==> exists i :: 0 <= i < |rows| && rows[i].card == c)
      && (forall i :: 0 <= i < |rows| ==> NoDup(board + [rows[i].card]))
  {
    var rows := AnalyzeRunouts(e, hero, villain, board, eval, drawsFor);
    var deck := Undealt(e, board);
    UndealtCards(e, board);
    forall c ensures c !in board <==> exists i :: 0 <= i < |rows| && rows[i].card == c {
      if c !in board {
        var i :| 0 <= i < |deck| && deck[i] == c;
        assert rows[i].card == c;
      }
    }
    forall i | 0 <= i < |rows| ensures NoDup(board + [rows[i].card]) {
      NoDupAppendIff(board, [rows[i].card]);
    }
  }

  // ---------------------------------------------------------------------
  // Risk figures
  // ---------------------------------------------------------------------

  /** `df['Loss'] = eq - df['Equity']`. */
  function Losses(eq: real, equities: seq<real>): (ls: seq<real>)
    ensures |ls| == |equities|
  {
    if equities == [] then [] else [eq - equities[0]] + Losses(eq, equities[1..])
  }

  /** `bad['Loss']`: the positive losses, in table order. */
  function BadLosses(eq: real, equities: seq<real>): seq<real> {
    Filter(Losses(eq, equities), l => l > 0.0)
  }

  datatype Metrics = Metrics(risk: real, scare: nat, safe: nat)

  /** The three figures shown under the heat map: the weighted downside
      risk `bad['Loss'].sum()`, the scare count `len(bad[bad['Loss'] > 5])`
      and the safe count `len(df) - len(bad)`. */
  function RiskMetrics(eq: real, equities: seq<real>): (m: Metrics)
    ensures m.scare <= |BadLosses(eq, equities)| <= |equities|
    ensures m.safe + |BadLosses(eq, equities)| == |equities|
  {
    var bad := BadLosses(eq, equities);
    Metrics(Sum(bad), |Filter(bad, l => l > 5.0)|, |equities| - |bad|)
  }

  /** A sum of positive numbers is non-negative, and zero only when empty. */
  lemma {:induction false} SumPositive(xs: seq<real>)
    requires forall i :: 0 <= i < |xs| ==> xs[i] > 0.0
    ensures Sum(xs) >= 0.0
    ensures Sum(xs) == 0.0 <==> xs == []
  {
    if xs != [] {
      SumPositive(xs[1..]);
    }
  }

  /** The risk is never negative, and it is zero exactly when no card
      lowers the equity. */
  lemma RiskZero(eq: real, equities: seq<real>)
    ensures RiskMetrics(eq, equities).risk >= 0.0
    ensures RiskMetrics(eq, equities).risk == 0.0 <==> forall i :: 0 <= i < |equities| ==> equities[i] >= eq
  {
    var bad := BadLosses(eq, equities);
    SumPositive(bad);
    BadEmptyIff(eq, equities);
  }

  /** No loss is positive exactly when no equity falls below `eq`. */
  lemma {:induction false} BadEmptyIff(eq: real, equities: seq<real>)
    ensures BadLosses(eq, equities) == [] <==> forall i :: 0 <= i < |equities| ==> equities[i] >= eq
  {
    if equities != [] {
      BadEmptyIff(eq, equities[1..]);
      assert forall i :: 1 <= i < |equities| ==> equities[i] == equities[1..][i - 1];
    }
  }

  /** The number of table entries at least `eq`. */
  function AtLeast(eq: real, equities: seq<real>): nat {
    if equities == [] then 0 else (if equities[0] >= eq then 1 else 0) + AtLeast(eq, equities[1..])
  }

  /** The safe cards are exactly the cards that keep or improve the
      equity. */
  lemma {:induction false} SafeCount(eq: real, equities: seq<real>)
    ensures RiskMetrics(eq, equities).safe == AtLeast(eq, equities)
  {
    if equities != [] {
      SafeCount(eq, equities[1..]);
    }
  }

  /** The risk is the sum over all cards of the positive part of the
      loss. */
  lemma {:induction false} RiskIsPositivePart(eq: real, equities: seq<real>)
    ensures RiskMetrics(eq, equities).risk == Sum(PositiveParts(eq, equities))
  {
    if equities != [] {
      RiskIsPositivePart(eq, equities[1..]);
    }
  }

  /** `max(0, eq - equity)` for each entry. */
  function PositiveParts(eq: real, equities: seq<real>): seq<real> {
    if equities == [] then []
    else [if eq - equities[0] > 0.0 then eq - equities[0] else 0.0] + PositiveParts(eq, equities[1..])
  }

  /** The scare cards are exactly the cards that lower the equity by more
      than 5 points. */
  lemma {:induction false} ScareCount(eq: real, equities: seq<real>)
    ensures RiskMetrics(eq, equities).scare == |Filter(equities, x => eq - x > 5.0)|
  {
    if equities != [] {
      ScareCount(eq, equities[1..]);
    }
  }

  /** The risk figures of the table `analyze_runouts` builds: the risk is
      zero exactly when no undealt card's estimate falls below the current
      equity, and the safe cards are those whose estimate does not; safe
      and bad cards together are the 52 - |board| undealt cards. */
  lemma RunoutRisk(e: Engine, hero: Range, villain: Range, board: seq<Card>, eval: Evaluator,
                   drawsFor: Card -> seq<Draw>, eq: real)
    requires hero == [] || villain == [] || forall c :: drawsFor(c) != []
    requires NoDup(board)
    ensures var rows := AnalyzeRunouts(e, hero, villain, board, eval, drawsFor);
      var m := RiskMetrics(eq, Equities(rows));
      && (m.risk == 0.0 <==> forall c :: c !in board ==> Estimate(e, hero, villain, board + [c], eval, drawsFor(c)) >= eq)
      && m.safe == AtLeast(eq, Equities(rows))
      && m.safe + |BadLosses(eq, Equities(rows))| == 52 - |board|
  {
    var rows := AnalyzeRunouts(e, hero, villain, board, eval, drawsFor);
    var es := Equities(rows);
    RunoutRows(e, hero, villain, board, eval, drawsFor);
    RiskZero(eq, es);
    SafeCount(eq, es);
    if forall i :: 0 <= i < |es| ==> es[i] >= eq {
      forall c | c !in board ensures Estimate(e, hero, villain, board + [c], eval, drawsFor(c)) >= eq {
        var i :| 0 <= i < |rows| && rows[i].card == c;
        assert es[i] >= eq;
      }
    }
    if forall c :: c !in board ==> Estimate(e, hero, villain, board + [c], eval, drawsFor(c)) >= eq {
      forall i | 0 <= i < |es| ensures es[i] >= eq {
        assert rows[i].card !in board;
      }
    }
  }

  /** The equities of a table, in order. */
  function Equities(rows: seq<Row>): (es: seq<real>)
    ensures |es| == |rows| && forall i :: 0 <= i < |rows| ==> es[i] == rows[i].equity
  {
    seq(|rows|, i requires 0 <= i < |rows| => rows[i].equity)
  }
}
