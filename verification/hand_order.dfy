/** The preflop hand ranking table and the percent slider's range text.

    `HAND_ORDER` lists the 169 starting-hand classes (13 pairs, 78 suited
    and 78 offsuit classes) from strongest to weakest; a slider selection
    `(start, end)` in percent becomes the classes between the two positions
    `int(169 * p / 100)`, written as a ", "-separated range text. */
module HandOrder {
  import opened Seqs
  import opened Text
  import opened Cards
  import opened RangeParser

  /** Table line 38 of `nlhe_range_check.py`. */
  const ROW_1: seq<string> := ["AA", "KK", "QQ", "AKs", "JJ", "AKo", "AQs", "TT", "AJs", "KQs", "99", "ATs", "AQo", "KJs", "88", "QJs", "JTs"]

  /** Table line 39 of `nlhe_range_check.py`. */
  const ROW_2: seq<string> := ["AJo", "KQo", "77", "ATo", "KTs", "QTs", "T9s", "KJo", "QJo", "J9s", "98s", "66", "A9s", "A5s", "A8s", "K9s", "Q9s", "JTo"]

  /** Table line 40 of `nlhe_range_check.py`. */
  const ROW_3: seq<string> := ["55", "A4s", "A7s", "A3s", "T8s", "87s", "A2s", "K8s", "Q8s", "J8s", "44", "A9o", "KTo", "QTo", "97s", "76s", "33", "22"]

  /** Table line 41 of `nlhe_range_check.py`. */
  const ROW_4: seq<string> := ["A6s", "K7s", "Q7s", "J7s", "T7s", "86s", "65s", "A8o", "K9o", "Q9o", "J9o", "T9o"]

  /** Table line 42 of `nlhe_range_check.py`. */
  const ROW_5: seq<string> := ["K6s", "Q6s", "J6s", "T6s", "96s", "75s", "54s", "A5o", "A7o", "K8o", "Q8o", "J8o", "T8o", "98o", "87o"]

  /** Table line 43 of `nlhe_range_check.py`. */
  const ROW_6: seq<string> := ["K5s", "Q5s", "J5s", "T5s", "95s", "85s", "64s", "A4o", "A6o", "K7o", "Q7o", "J7o", "T7o", "97o", "76o"]

  /** Table line 44 of `nlhe_range_check.py`. */
  const ROW_7: seq<string> := ["K4s", "Q4s", "J4s", "T4s", "94s", "84s", "74s", "53s", "A3o", "A2o", "65o", "54o"]

  /** Table line 45 of `nlhe_range_check.py`. */
  const ROW_8: seq<string> := ["K3s", "Q3s", "J3s", "T3s", "93s", "83s", "73s", "63s", "43s"]

  /** Table line 46 of `nlhe_range_check.py`. */
  const ROW_9: seq<string> := ["K2s", "Q2s", "J2s", "T2s", "92s", "82s", "72s", "62s", "52s", "42s", "32s"]

  /** Table line 47 of `nlhe_range_check.py`. */
  const ROW_10: seq<string> := ["K6o", "Q6o", "J6o", "T6o", "96o", "86o", "75o", "64o", "53o"]

  /** Table line 48 of `nlhe_range_check.py`. */
  const ROW_11: seq<string> := ["K5o", "Q5o", "J5o", "T5o", "95o", "85o", "74o", "63o", "52o", "43o"]

  /** Table line 49 of `nlhe_range_check.py`. */
  const ROW_12: seq<string> := ["K4o", "Q4o", "J4o", "T4o", "94o", "84o", "73o", "62o", "42o", "32o"]

  /** Table line 50 of `nlhe_range_check.py`. */
  const ROW_13: seq<string> := ["K3o", "Q3o", "J3o", "T3o", "93o", "83o", "72o", "K2o", "Q2o", "J2o", "T2o", "92o", "82o"]
  /** The 169 hand classes, strongest first. */
  const HAND_ORDER: seq<string> :=
    ROW_1 + ROW_2 + ROW_3 + ROW_4 + ROW_5 + ROW_6 + ROW_7 + ROW_8 + ROW_9 + ROW_10 + ROW_11 + ROW_12 + ROW_13

  /** A hand class as the table writes it: a pair ("QQ"), or two different
      ranks followed by `s` or `o` ("AKs", "T9o"). */
  predicate HandClass(t: string) {
    || (|t| == 2 && t[0] in RANKS && t[1] == t[0])
    || (|t| == 3 && t[0] in RANKS && t[1] in RANKS && t[0] != t[1] && (t[2] == 's' || t[2] == 'o'))
  }

  predicate AllClasses(ts: seq<string>) {
    forall i :: 0 <= i < |ts| ==> HandClass(ts[i])
  }

  lemma AllClassesAppend(a: seq<string>, b: seq<string>)
    requires AllClasses(a) && AllClasses(b)
    ensures AllClasses(a + b)
  {
    forall i | 0 <= i < |a + b| ensures HandClass((a + b)[i]) {
      if i >= |a| {
        assert (a + b)[i] == b[i - |a|];
      }
    }
  }

  lemma Row1Classes()
    ensures AllClasses(ROW_1)
  {
  }

  lemma Row2Classes()
    ensures AllClasses(ROW_2)
  {
  }

  lemma Row3Classes()
    ensures AllClasses(ROW_3)
  {
  }

  lemma Row4Classes()
    ensures AllClasses(ROW_4)
  {
  }

  lemma Row5Classes()
    ensures AllClasses(ROW_5)
  {
  }

  lemma Row6Classes()
    ensures AllClasses(ROW_6)
  {
  }

  lemma Row7Classes()
    ensures AllClasses(ROW_7)
  {
  }

  lemma Row8Classes()
    ensures AllClasses(ROW_8)
  {
  }

  lemma Row9Classes()
    ensures AllClasses(ROW_9)
  {
  }

  lemma Row10Classes()
    ensures AllClasses(ROW_10)
  {
  }

  lemma Row11Classes()
    ensures AllClasses(ROW_11)
  {
  }

  lemma Row12Classes()
    ensures AllClasses(ROW_12)
  {
  }

  lemma Row13Classes()
    ensures AllClasses(ROW_13)
  {
  }

  /** The table has 169 entries, each a hand class the parser accepts as
      shorthand. */
  lemma HandOrderClasses()
    ensures |HAND_ORDER| == 169
    ensures AllClasses(HAND_ORDER)
  {
    Row1Classes(); Row2Classes(); Row3Classes(); Row4Classes(); Row5Classes();
    Row6Classes(); Row7Classes(); Row8Classes(); Row9Classes(); Row10Classes();
    Row11Classes(); Row12Classes(); Row13Classes();
    var acc := ROW_1;
    AllClassesAppend(acc, ROW_2); acc := acc + ROW_2;
    AllClassesAppend(acc, ROW_3); acc := acc + ROW_3;
    AllClassesAppend(acc, ROW_4); acc := acc + ROW_4;
    AllClassesAppend(acc, ROW_5); acc := acc + ROW_5;
    AllClassesAppend(acc, ROW_6); acc := acc + ROW_6;
    AllClassesAppend(acc, ROW_7); acc := acc + ROW_7;
    AllClassesAppend(acc, ROW_8); acc := acc + ROW_8;
    AllClassesAppend(acc, ROW_9); acc := acc + ROW_9;
    AllClassesAppend(acc, ROW_10); acc := acc + ROW_10;
    AllClassesAppend(acc, ROW_11); acc := acc + ROW_11;
    AllClassesAppend(acc, ROW_12); acc := acc + ROW_12;
    AllClassesAppend(acc, ROW_13); acc := acc + ROW_13;
    assert acc == HAND_ORDER;
  }

  /** The token-level facts about a hand class. */
  lemma HandClassShape(t: string)
    requires HandClass(t)
    ensures RankPrefix(t) && ',' !in t && '1' !in t && !IsSpace(t[|t| - 1])
    ensures ShorthandSize(t) == (if |t| == 2 then 6 else if t[2] == 's' then 4 else 12)
  {
    RankLetters(t[0]);
    RankLetters(t[1]);
    if |t| == 3 {
      assert FlagsOf(t) == Flags(false, t[2] == 's', t[2] == 'o');
    } else {
      assert FlagsOf(t) == Flags(false, false, false);
    }
  }

  /** A hand class parses as shorthand to its 6 pair combos, 4 suited or
      12 offsuit combos. */
  lemma HandClassParses(e: Engine, t: string)
    requires HandClass(t)
    ensures Parse(e, t) == Shorthand(t)
    ensures |Parse(e, t)| == (if |t| == 2 then 6 else if t[2] == 's' then 4 else 12)
  {
    HandClassShape(t);
    ShorthandParse(e, t);
    ShorthandCount(t);
  }

  /** `int(169 * (p / 100))` for a slider position `p` in 0..100: the
      product is an integer only at 0 and 100, and everywhere else at least
      1/100 away from one, so the floating-point floor is the exact one. */
  function PercentIndex(p: int): (i: nat)
    requires 0 <= p <= 100
    ensures i <= 169
    ensures 100 * i <= 169 * p < 100 * (i + 1)
  {
    169 * p / 100
  }

  /** `get_range_string_from_percent(start, end)`. */
  function RangeStringFromPercent(start: int, end: int): string
    requires 0 <= start <= 100 && 0 <= end <= 100
  {
    if start >= end then ""
    else
      var sel := HAND_ORDER[PercentIndex(start)..PercentIndex(end)];
      if sel == [] then "" else Join(sel, ", ")
  }

  /** The selected classes: nothing for an empty or reversed selection,
      otherwise the contiguous, non-empty stretch of the table between the
      two positions. */
  lemma PercentSelection(start: int, end: int)
    requires 0 <= start <= 100 && 0 <= end <= 100
    ensures start >= end ==> RangeStringFromPercent(start, end) == ""
    ensures start < end ==>
      && PercentIndex(start) < PercentIndex(end)
      && RangeStringFromPercent(start, end) == Join(HAND_ORDER[PercentIndex(start)..PercentIndex(end)], ", ")
  {
    HandOrderClasses();
    if start < end {
      var i, j := PercentIndex(start), PercentIndex(end);
      assert 169 * end >= 169 * start + 169;
      assert 100 * j + 100 > 169 * end;
      assert 100 * i <= 169 * start;
      assert 100 * (j + 1) > 100 * i + 169;
    }
  }

  /** The whole slider (0, 100) selects all 169 classes. */
  lemma PercentAll()
    ensures RangeStringFromPercent(0, 100) == Join(HAND_ORDER, ", ")
  {
    HandOrderClasses();
    assert PercentIndex(0) == 0 && PercentIndex(100) == 169;
    assert HAND_ORDER[0..169] == HAND_ORDER;
  }

  /** A selection with start < end always yields a range text that parses,
      with either engine, to a non-empty range: the concatenation of each
      selected class's combos. */
  lemma PercentParses(e: Engine, start: int, end: int)
    requires 0 <= start < end <= 100
    ensures Parse(e, RangeStringFromPercent(start, end)) != []
  {
    PercentSelection(start, end);
    var i, j := PercentIndex(start), PercentIndex(end);
    ParseJoin(e, HAND_ORDER[i..j]);
    SelectionParses(e, i, j);
  }

  /** A non-empty stretch of the table parses to a non-empty range. */
  lemma SelectionParses(e: Engine, i: nat, j: nat)
    requires i < j <= 169
    ensures ParseEach(e, HAND_ORDER[i..j]) != []
  {
    HandOrderClasses();
    var sel := HAND_ORDER[i..j];
    assert sel[0] == HAND_ORDER[i];
    assert HandClass(HAND_ORDER[i]);
    FirstClassParses(e, sel);
  }

  lemma FirstClassParses(e: Engine, sel: seq<string>)
    requires sel != [] && HandClass(sel[0])
    ensures ParseEach(e, sel) != []
  {
    HandClassParses(e, sel[0]);
    ParseEachCons(e, sel);
  }
}
