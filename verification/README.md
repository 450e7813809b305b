# Poker range engine

This project is a Dafny model of the range engine shared by the two Streamlit scripts of the poker equity tool:

- `nlhe_range_check.py`, built on the eval7 library;
- `range_dynamics_checker.py`, built on the treys library.

Both scripts turn range shorthand ("QQ+, AKs, AhKd") into lists of two-card combos. They draw a range from a 169-class hand ranking with a percent slider, and paint a range onto a 13x13 grid. They estimate the equity of one range against another by Monte-Carlo. They tabulate the equity after each possible next card, and derive three risk figures from that table. Finally, they estimate the equity of each hand in a range, and let the user toggle board cards.

The two scripts differ in four places, so every operation that depends on the library takes an `Engine` (`Eval7` or `Treys`):

- how an exact combo's card codes are read: eval7's `Card` is handed the code as written, while treys' `str_to_card` first turns "10" and "0" into "T" and answers None on a bad code;
- which evaluator score wins: eval7's higher score, or treys' lower score;
- the suit order of the deck: `cdhs` or `shdc`;
- the estimator's deck: `nlhe_range_check.py` removes the board cards from it before the loop, `range_dynamics_checker.py` does not.

Modules, one file each:

- `Seqs`: duplicate freedom, element sets, filtering and sums.
- `Text`: Python's `split`, `strip`, `join` and `replace`, as the parser uses them.
- `Cards`: ranks, suits, card codes and the 52-card deck.
- `RangeParser`: `parse_range_notation`.
- `HandOrder`: the `HAND_ORDER` table and `get_range_string_from_percent`.
- `RangeGrid`: `create_range_grid_visual`.
- `Equity`: `calculate_equity`.
- `Runouts`: `analyze_runouts` and the risk figures.
- `Distribution`: `analyze_range_distribution`.
- `BoardToggle`: the board picker's `toggle` callback.

Randomness enters through explicit inputs:

- A call `random.choice(r)` is encoded as a pick: the combo `r[pick % |r|]`.
- A call `random.sample(pool, n)` is encoded as n picks: each takes the element at `pick % |pool|` out of what is left of the pool. This fixes which elements are drawn and in which order, not how the `random` module chooses them.
- One iteration of the estimator is a `Draw`: the two combo picks and the runout picks.
- The number of iterations is the number of draws.

The hand evaluator is an uninterpreted function parameter.

Where the code and its written description differ, the model follows the code:

- Rank letters are case-sensitive. "ak" is skipped, not read as AK.
- Every "10" anywhere in a token becomes "T", so the token "1010" reads as "TT" and "A10s" as "ATs".
- A pair token ignores any characters after its ranks other than '+'.
- The safe count is the number of cards whose equity is at least the current equity. Cards with a loss of exactly 0 are safe.
- The estimator's "fewer cards left than needed" exit can never be taken. `Equity.NeverShort` proves this.
- `nlhe_range_check.py` removes the board cards from its deck before the loop. `range_dynamics_checker.py` does not. The conflict test already keeps board cards out of the runout in both.

## Model

| member | source | states |
|---|---|---|
| Text.Split | nlhe_range_check.py:64 | `split(',')` yields at least one piece, and no piece holds the separator |
| Text.JoinSplit | nlhe_range_check.py:64 | joining the pieces of a split with the separator gives back the text, so no character is lost or added |
| Text.SplitJoin | nlhe_range_check.py:64 | splitting undoes joining when no piece holds the separator |
| Text.StripPadded | nlhe_range_check.py:64 | `strip()` removes any white-space padding in front of a token and keeps the token itself |
| Text.ReplaceTenRemovesTens | nlhe_range_check.py:67 | after `replace("10", "T")` no "10" remains; a token without '1' is unchanged; a first character other than '1' is kept |
| Text.ReplaceTenKeeps | nlhe_range_check.py:67 | a text with no "10" in it is left unchanged ("A1s" stays "A1s") |
| Text.ReplaceTenFirst | nlhe_range_check.py:67 | the first "10" becomes "T", the text before it is kept and the text after it is replaced on its own; with ReplaceTenKeeps this determines the result on every text |
| Text.ReplaceTenIdempotent | range_dynamics_checker.py:105 | replacing a second time changes nothing |
| Cards.StrToCard | range_dynamics_checker.py:94-97 | `str_to_card`; the definition carries no contract, and Cards.StrToCardSpec, Cards.CodeRoundTrip and Cards.StrToCardTens state what it does |
| Cards.RankOf | nlhe_range_check.py:73 | `ranks.find` succeeds exactly on rank letters and returns the letter's index |
| Cards.LibraryCard | nlhe_range_check.py:69 | the card library is modelled as accepting a code exactly when it is a rank letter followed by a suit letter, the card's code being those two characters |
| Cards.StrToCardSpec | range_dynamics_checker.py:94-97 | `str_to_card` accepts exactly the codes whose normalised form starts with a rank and a suit letter, and returns the card with that code |
| Cards.CodeRoundTrip | range_dynamics_checker.py:93-97 | every card's code reads back as that card, both through the library and through `str_to_card` |
| Cards.StrToCardTens | range_dynamics_checker.py:94-97 | `str_to_card` reads "0h" and "10h" as the ten of hearts |
| Cards.LibraryCardRejectsZero | nlhe_range_check.py:69 | eval7 does not accept "0h" |
| Cards.FullDeckComplete | range_dynamics_checker.py:238-239 | the deck of either script holds every one of the 52 cards exactly once |
| RangeParser.PairRunSpec | nlhe_range_check.py:76-80 | the pair loop emits 6 distinct combos per rank, exactly the two-suit pairs of the ranks in the window |
| RangeParser.KickerRunSpec | nlhe_range_check.py:83-90 | the kicker loop emits 4, 12 or 16 distinct combos per kicker, exactly those with the top rank over a kicker in the window, in the suit classes the flags select |
| RangeParser.Shorthand | nlhe_range_check.py:71-90 | the shorthand branch; the definition carries no contract, and ShorthandCount, ShorthandContents and ShorthandSwap state what it yields |
| RangeParser.ShorthandCount | range_dynamics_checker.py:113-130 | a token starting with two ranks expands to 6 combos per pair rank, or 4/12/16 per kicker, with no combo twice and at least one combo |
| RangeParser.ShorthandContents | range_dynamics_checker.py:113-130 | the expansion is exactly the combos the token stands for; the higher rank is on top and the two cards always differ |
| RangeParser.ShorthandSwap | nlhe_range_check.py:82 | the order of the two ranks in a token does not matter ("KAs" is "AKs") |
| RangeParser.ExpandToken | nlhe_range_check.py:66-91 | one token contributes something only when, after the "10" replacement, it is of exact-combo shape or starts with two rank letters |
| RangeParser.ExpandTokenTens | nlhe_range_check.py:67 | a token expands the same whether its tens are spelled "10" or "T" |
| RangeParser.TokenSkipped | nlhe_range_check.py:66-74 | a token shorter than two characters contributes nothing, and so does one that, after the "10" replacement, neither starts with two rank letters nor is of exact-combo shape ("10Ks" is not skipped: it becomes "TKs") |
| RangeParser.ExactToken | range_dynamics_checker.py:106-111 | a token of exact-combo shape yields at most one combo, that of its two card codes, and is never expanded as shorthand |
| RangeParser.ExactCodes | nlhe_range_check.py:68-70 | two card codes written together yield that one combo, even when both are the same card |
| RangeParser.EnginesAgree | range_dynamics_checker.py:99-132 | the two scripts parse every token alike, except an exact combo with a '0' rank |
| RangeParser.ZeroTenExact | range_dynamics_checker.py:106-111 | "0h" plus a card code is a combo with the ten of hearts to treys and nothing to eval7 |
| RangeParser.Parse | nlhe_range_check.py:61-92 | `parse_range_notation`; the definition carries no contract, and ParseBlank, ParseConcat, ParseJoin and ShorthandParse state what it returns |
| RangeParser.ParseConcat | nlhe_range_check.py:64-65 | the range of "a,b" is the range of "a" followed by that of "b" |
| RangeParser.ParseBlank | nlhe_range_check.py:63 | empty, blank and comma-only texts give the empty range |
| RangeParser.ShorthandParse | nlhe_range_check.py:61-92 | a single shorthand token parses to its expansion |
| RangeParser.PairTokenCount | nlhe_range_check.py:76-80 | "QQ" gives 6 distinct combos, "QQ+" 6 for each rank from Q up to A |
| RangeParser.PairTokenContents | nlhe_range_check.py:76-80 | a pair token's combos are exactly the two-suit pairs of its rank, or with `+` of every rank from it up to the ace |
| RangeParser.NonPairTokenCount | nlhe_range_check.py:81-90 | a non-pair token gives 4, 12 or 16 distinct combos per kicker; with `+` the kicker runs from the lower rank to one below the top |
| RangeParser.NonPairTokenContents | nlhe_range_check.py:81-90 | a non-pair token's combos are exactly the higher rank over each kicker in the suit classes of its flags, whichever rank is written first |
| RangeParser.ParsePadded | nlhe_range_check.py:64 | white space in front of a token changes nothing |
| RangeParser.JunkToken | nlhe_range_check.py:74 | a token that starts with no rank letter, holds no '1' and is no exact combo gives nothing |
| RangeParser.ParseSpaceFront | nlhe_range_check.py:64 | a white-space character in front of any text changes nothing |
| RangeParser.ParseJoin | nlhe_range_check.py:61-92 | a ", "-joined list of texts parses to the concatenation of what each text parses to |
| RangeParser.RepeatedToken | nlhe_range_check.py:92 | a repeated token is listed twice: nothing is deduplicated |
| RangeParser.ExampleAces | nlhe_range_check.py:76-80 | "AA" is 6 combos |
| RangeParser.ExampleQueensPlus | nlhe_range_check.py:76-80 | "QQ+" is 18 combos |
| RangeParser.ExampleAceKingSuited | nlhe_range_check.py:85-86 | "AKs" is 4 combos |
| RangeParser.ExampleAceKingOffsuit | nlhe_range_check.py:87-90 | "AKo" is 12 combos |
| RangeParser.ExampleAceKingAll | nlhe_range_check.py:85-90 | "AK" is 16 combos |
| RangeParser.ExampleAceTenSpelled | range_dynamics_checker.py:105 | "A10s" expands like "ATs", with either engine |
| RangeParser.ExampleTensSpelled | nlhe_range_check.py:67 | "1010" expands like "TT", to 6 combos |
| RangeParser.ExampleJunk | nlhe_range_check.py:73-74 | the unknown word "bogus!!" is the empty range |
| RangeParser.ExampleNoDedup | nlhe_range_check.py:92 | "AKs, AKs" is the 4 suited ace-kings twice |
| HandOrder.HandOrderClasses | range_dynamics_checker.py:84-89 | the table has 169 entries, matching `total = 169`, and each is a pair, suited or offsuit class |
| HandOrder.HandClassParses | range_dynamics_checker.py:84-86 | every class parses as shorthand to 6, 4 or 12 combos |
| HandOrder.PercentIndex | nlhe_range_check.py:56-57 | `int(169 * (p / 100))` is the largest index i with 100 * i <= 169 * p |
| HandOrder.RangeStringFromPercent | range_dynamics_checker.py:87-91 | `get_range_string_from_percent`; the definition carries no contract, and PercentSelection, PercentAll and PercentParses state what it returns |
| HandOrder.PercentSelection | nlhe_range_check.py:53-59 | start >= end gives ""; otherwise the start index is below the end index and the text is the slice between them joined by ", " |
| HandOrder.PercentAll | nlhe_range_check.py:53-59 | the slider (0, 100) selects all 169 classes |
| HandOrder.PercentParses | range_dynamics_checker.py:87-91 | any selection with start < end parses to a non-empty range |
| RangeGrid.AxisIndex | nlhe_range_check.py:95 | a rank's grid index labels it on the axis `AKQJT98765432` |
| RangeGrid.Cell | nlhe_range_check.py:102-108 | the cell a combo lights is on the 13x13 grid; RangeGrid.CellRegion says which one |
| RangeGrid.CellSymmetric | nlhe_range_check.py:102-108 | a combo lights the same cell whichever of its two cards comes first |
| RangeGrid.CellRegion | nlhe_range_check.py:104-108 | pairs land on the diagonal, suited combos above it, offsuit combos below it, in the higher rank's row or column |
| RangeGrid.BuildGrid | nlhe_range_check.py:94-110 | the grid is 13x13, and a cell is 1 exactly when some combo lights it and 0 otherwise |
| RangeGrid.GridOfCombo | nlhe_range_check.py:94-110 | a one-combo range lights exactly that combo's cell and no other |
| RangeGrid.GridOrderFree | range_dynamics_checker.py:134-150 | the grid depends only on which combos occur, not on their order or repetition |
| RangeGrid.GridDuplicates | nlhe_range_check.py:97-108 | listing a range twice does not change its grid |
| Equity.Sample | nlhe_range_check.py:172 | the runout has exactly the requested number of cards, all drawn from the pool without replacement |
| Equity.SampleFromPool | nlhe_range_check.py:172 | a sample from a deck without repeats has no repeats |
| Equity.ConflictIff | nlhe_range_check.py:166-167 | a trial is discarded exactly when board and both hands, listed together, repeat a card |
| Equity.ConflictCases | range_dynamics_checker.py:243-244 | no discard means the board has no repeat, the four hole cards differ, and none is on the board |
| Equity.SameHandConflict | nlhe_range_check.py:166-167 | the same combo for both players is always discarded |
| Equity.BoardCardConflict | nlhe_range_check.py:166-167 | a hole card on the board is always discarded |
| Equity.EstimatorDeckCards | nlhe_range_check.py:159-161 | the deck holds each card once, without the board cards for eval7 |
| Equity.RemainingCards | range_dynamics_checker.py:245 | after a legal draw the remaining deck is every unused card once, 48 - \|board\| of them |
| Equity.NeverShort | nlhe_range_check.py:169-171 | once the conflict test has passed, enough cards always remain for the runout |
| Equity.Showdown | range_dynamics_checker.py:249-254 | a showdown scores a win, a tie or a loss and is never a discard |
| Equity.Trial | nlhe_range_check.py:165-176 | one iteration; the definition carries no contract, and TrialDiscardIff, TrialDeal and TrialMirror state its outcome |
| Equity.TrialDiscardIff | nlhe_range_check.py:164-171 | an iteration is discarded exactly when its two combos conflict with each other or with the board |
| Equity.TrialDeal | nlhe_range_check.py:168-174 | a scored iteration is played on a five-card board, or on the given board if longer, with no card dealt twice |
| Equity.TallyOf | nlhe_range_check.py:175-176 | the counters are the numbers of wins and ties, and together at most the number of iterations |
| Equity.CountsPartition | nlhe_range_check.py:164-176 | every iteration is a win, a tie, a loss or a discard |
| Equity.OutcomesAt | nlhe_range_check.py:164-176 | the outcome of iteration i is the trial played on the i-th draw, whatever the other iterations do |
| Equity.Share | nlhe_range_check.py:177 | wins plus half the ties, over the number of iterations, times 100, lies in [0, 100] when wins and ties together are at most the iterations |
| Equity.EstimateCounts | nlhe_range_check.py:164-177 | the estimate is the share of wins plus half the ties over all iterations, discarded ones included in the divisor |
| Equity.IterationsPartition | range_dynamics_checker.py:241-254 | every iteration ends as exactly one of win, tie, loss or discard, so the four counts add up to the number of iterations |
| Equity.SharesSum | nlhe_range_check.py:177 | the share of wins and the share of losses, over the same ties, add up to the share of iterations not discarded |
| Equity.ShowdownMirror | range_dynamics_checker.py:249-254 | with the same runout, exchanging the two hands turns a win into a loss and back and keeps a tie |
| Equity.EstimateSwapped | range_dynamics_checker.py:240-255 | the second seat's estimate on the seat-swapped draws is the share of the first seat's losses plus half the ties |
| Equity.Estimate | range_dynamics_checker.py:240-255 | the estimate lies in [0, 100], and is 0 when either range is empty |
| Equity.TrialMirror | range_dynamics_checker.py:251-254 | exchanging the two seats on the same choices turns wins into losses and back, and keeps ties and discards |
| Equity.EstimateMirror | nlhe_range_check.py:164-177 | on the same choices, the two seats' estimates add up to 100 times the share of iterations not discarded |
| Equity.SameHandEstimate | nlhe_range_check.py:162-177 | a one-combo range against the same combo estimates to 0 |
| Runouts.AnalyzeRunouts | nlhe_range_check.py:179-192 | one row per undealt card in deck order; each equity lies in [0, 100] and is the estimate on the board plus that card |
| Runouts.Undealt | nlhe_range_check.py:180-181 | the deck without the board, in deck order; the definition carries no contract, and Runouts.UndealtCards states which cards it holds |
| Runouts.UndealtCards | range_dynamics_checker.py:258-261 | the undealt cards are every card off the board, once each, 52 - \|board\| for a board without repeats |
| Runouts.RunoutRows | range_dynamics_checker.py:257-271 | every card off the board has a row, and each row's board has no repeated card |
| Runouts.RiskMetrics | range_dynamics_checker.py:351-356 | scare <= bad <= total, and safe + bad = total |
| Runouts.RiskZero | nlhe_range_check.py:319-323 | the risk is never negative, and is 0 exactly when no card lowers the equity |
| Runouts.BadEmptyIff | nlhe_range_check.py:319-320 | there are no bad cards exactly when every equity is at least the current one |
| Runouts.SafeCount | nlhe_range_check.py:336 | the safe count is the number of cards that keep or improve the equity |
| Runouts.RunoutRisk | nlhe_range_check.py:315-336 | on the table the heat map is built from, the risk is 0 exactly when no undealt card's estimate is below the current equity, and safe plus bad cards are the 52 - \|board\| undealt cards |
| Runouts.RiskIsPositivePart | nlhe_range_check.py:319-323 | the risk is the sum over all cards of the positive part of the loss |
| Runouts.ScareCount | nlhe_range_check.py:326 | the scare count is the number of cards that lower the equity by more than 5 |
| Distribution.SampleHands | nlhe_range_check.py:196-198 | at most 100 combos are sampled, without replacement, and a range of at most 100 is kept whole |
| Distribution.AnalyzeDistribution | range_dynamics_checker.py:273-279 | each side gets min(\|range\|, 100) sampled hands from its own range, each with the equity of that one hand against the whole opposing range |
| Distribution.HandEquities | nlhe_range_check.py:199-200 | one equity per sampled hand, in order, each in [0, 100] and equal to that one hand's estimate against the whole opposing range |
| Distribution.SampleDistinct | nlhe_range_check.py:197-198 | sampling from a range without repeats never picks a combo twice |
| BoardToggle.Toggle | nlhe_range_check.py:265-269 | a toggle adds at most the toggled card and never adds any other card |
| BoardToggle.TogglePreservesValid | range_dynamics_checker.py:212-216 | toggling keeps the board at five cards or fewer with no card twice |
| BoardToggle.ToggleMembership | nlhe_range_check.py:265-269 | after a toggle the card is on the board exactly when it was off and fewer than five cards were there; every other card stays as it was |
| BoardToggle.ToggleTwice | nlhe_range_check.py:265-269 | adding a card and toggling it again restores the board |

## Left out

- Streamlit UI and session state are not modelled: sliders, tabs, dialogs, reruns, progress bars, CSS and `render_specific_hand_builder`. The model takes the values they produce as inputs.
- `display_board_streets` and the card image URLs are rendering only.
- Plotly and pandas charts, the heat-map pivot and the click-to-add selection handler are visualisation only.
- Cards.LibraryCard: eval7's `Card` and treys' `Card.new` are not part of this model, and their behaviour is an assumption: a code is accepted exactly when a rank letter of `23456789TJQKA` is followed by a suit letter of `cdhs`, only those two characters are read, and equal rank and suit make equal cards. Other spellings the libraries may accept, such as suit symbols, are not modelled; the scripts only hand them ASCII codes (the exact-combo shape test and the literal decks). Cards.CodeRoundTrip, Cards.LibraryCardRejectsZero, RangeParser.ExactCodes, RangeParser.EnginesAgree and RangeParser.ZeroTenExact rest on this assumption.
- The eval7 and treys hand evaluators are not part of this model. The evaluator is a function parameter, and no property of hand strength is claimed.
- The `random` module is not modelled. Its choices are explicit inputs, and no statement about distributions or convergence is made.
- Equity.Estimate: the ratio is computed in exact `real` arithmetic, so floating-point rounding is not modelled.
- Equity.Estimate: zero iterations with two non-empty ranges is excluded by its precondition. The source would divide by zero there, but its iteration sliders never go below 100.
- Equity.Estimate: the evaluator receives hole cards and board as two arguments for both libraries. eval7 actually receives one concatenated list, and treys receives the board first.
- HandOrder.PercentIndex: only slider values 0..100 are modelled, which is the slider's range. For an integer p in that range, the floating-point `int(169 * (p / 100))` equals the integer floor, because 169 * p / 100 is whole only at 0 and 100.
- HandOrder: the model does not prove that the 169 table entries are all different.
- RangeGrid.BuildGrid: combos are cards, not strings, so the `rank_map.get` lookup failure branch cannot occur and is left out.
- Risk figures are modelled over the equity column only. The card, rank and suit label columns of the table are not modelled.
- Unicode suit symbols in button labels are not modelled.
