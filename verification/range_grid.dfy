/** The 13x13 picture of a range (`create_range_grid_visual`).

    Rows and columns follow the axis `AKQJT98765432`, so the ace is index 0.
    A pair lights its diagonal cell, a suited combo the cell above the
    diagonal (row of the higher rank, column of the lower), and any other
    combo the mirror cell below the diagonal.  Each cell holds 0 or 1. */
module RangeGrid {
  import opened Seqs
  import opened Cards
  import opened RangeParser

  /** The grid's axis labels. */
  const AXIS: string := "AKQJT98765432"

  /** The position of a rank on the grid's axis. */
  function AxisIndex(r: Rank): (i: nat)
    ensures i < 13 && AXIS[i] == RANKS[r]
  {
    12 - r
  }

  datatype Pos = Pos(row: nat, col: nat)

  /** The cell a combo lights: with `h` the axis index of the higher rank
      and `l` that of the lower, `[h][h]` for a pair, `[h][l]` for two cards
      of one suit and `[l][h]` otherwise. */
  function Cell(c: Combo): (p: Pos)
    ensures p.row < 13 && p.col < 13
  {
    var i1, i2 := AxisIndex(c.first.rank), AxisIndex(c.second.rank);
    var h := if i1 < i2 then i1 else i2;
    var l := if i1 < i2 then i2 else i1;
    if c.first.rank == c.second.rank then Pos(h, h)
    else if c.first.suit == c.second.suit then Pos(h, l)
    else Pos(l, h)
  }

  /** Where each kind of combo lands: pairs on the diagonal, suited combos
      above it, offsuit combos below it, always in the row or column of the
      higher rank. */
  lemma CellRegion(c: Combo)
    ensures var p, hi, lo := Cell(c), Max(c.first.rank, c.second.rank), Min(c.first.rank, c.second.rank);
      && (c.first.rank == c.second.rank ==> p == Pos(12 - hi, 12 - hi))
      && (c.first.rank != c.second.rank && c.first.suit == c.second.suit ==> p == Pos(12 - hi, 12 - lo) && p.row < p.col)
      && (c.first.rank != c.second.rank && c.first.suit != c.second.suit ==> p == Pos(12 - lo, 12 - hi) && p.row > p.col)
  {
  }

  /** The two cards of a combo light the same cell in either order. */
  lemma CellSymmetric(c: Combo)
    ensures Cell(Combo(c.second, c.first)) == Cell(c)
  {
  }

  type Grid = seq<seq<int>>

  predicate IsGrid(g: Grid) {
    |g| == 13 && forall i :: 0 <= i < 13 ==> |g[i]| == 13
  }

  /** The cells the combos of a list light. */
  function Cells(combos: seq<Combo>): set<Pos> {
    set c | c in combos :: Cell(c)
  }

  /** `[[0]*13 for _ in range(13)]`. */
  function EmptyGrid(): (g: Grid)
    ensures IsGrid(g)
  {
    seq(13, _ => seq(13, _ => 0))
  }

  /** `grid_data[p.row][p.col] = 1`. */
  function Mark(g: Grid, p: Pos): (r: Grid)
    requires IsGrid(g) && p.row < 13 && p.col < 13
    ensures IsGrid(r)
  {
    g[p.row := g[p.row][p.col := 1]]
  }

  /** `create_range_grid_visual(combos)`: the combos marked in list order.
      A cell is 1 exactly when some combo lights it, and 0 otherwise. */
  function BuildGrid(combos: seq<Combo>): (g: Grid)
    ensures IsGrid(g)
    ensures forall i, j :: 0 <= i < 13 && 0 <= j < 13 ==>
      g[i][j] == (if Pos(i, j) in Cells(combos) then 1 else 0)
  {
    if combos == [] then EmptyGrid()
    else
      var n := |combos| - 1;
      assert Cells(combos) == Cells(combos[..n]) + {Cell(combos[n])} by {
        assert combos == combos[..n] + [combos[n]];
      }
      Mark(BuildGrid(combos[..n]), Cell(combos[n]))
  }

  /** Two grids of the same shape are equal when their cells are. */
  lemma GridExt(g: Grid, h: Grid)
    requires IsGrid(g) && IsGrid(h)
    requires forall i, j :: 0 <= i < 13 && 0 <= j < 13 ==> g[i][j] == h[i][j]
    ensures g == h
  {
    forall i | 0 <= i < 13 ensures g[i] == h[i] {
      assert |g[i]| == |h[i]| == 13;
    }
  }

  /** The grid depends only on which combos occur: not on their order, and
      not on how often each occurs. */
  lemma GridOrderFree(a: seq<Combo>, b: seq<Combo>)
    requires Elems(a) == Elems(b)
    ensures BuildGrid(a) == BuildGrid(b)
  {
    assert Cells(a) == Cells(b) by {
      assert forall c :: c in a <==> c in Elems(a);
      assert forall c :: c in b <==> c in Elems(b);
    }
    GridExt(BuildGrid(a), BuildGrid(b));
  }

  /** Listing a range twice does not change its grid. */
  lemma GridDuplicates(a: seq<Combo>)
    ensures BuildGrid(a + a) == BuildGrid(a)
  {
    assert Elems(a + a) == Elems(a);
    GridOrderFree(a + a, a);
  }

  /** A one-combo range lights exactly that combo's cell. */
  lemma GridOfCombo(c: Combo)
    ensures var g := BuildGrid([c]);
      forall i, j :: 0 <= i < 13 && 0 <= j < 13 ==> (g[i][j] == 1 <==> Pos(i, j) == Cell(c))
  {
    assert Cells([c]) == {Cell(c)};
  }
}
