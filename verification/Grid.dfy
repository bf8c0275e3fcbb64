/** Cells of a grid, numbered row by row. */
module Grids {

  /** Cells are numbered row by row. */
  function Col(c: nat, sw: nat): nat
    requires sw > 0
  {
    c % sw
  }

  function Row(c: nat, sw: nat): nat
    requires sw > 0
  {
    c / sw
  }

  function Cell(i: nat, j: nat, sw: nat): nat { j * sw + i }

  lemma CellParts(i: nat, j: nat, sw: nat)
    requires i < sw
    ensures Col(Cell(i, j, sw), sw) == i && Row(Cell(i, j, sw), sw) == j
  {
    var c := Cell(i, j, sw);
    assert c == (c / sw) * sw + c % sw;
    DivisionIsUnique(j, i, c / sw, c % sw, sw);
  }

  lemma Farther(q: nat, q': nat, m: nat)
    requires q < q'
    ensures q' * m >= q * m + m
  {
    assert q' * m == q * m + m + (q' - q - 1) * m;
  }

  lemma DivisionIsUnique(q: nat, r: nat, q': nat, r': nat, m: nat)
    requires r < m && r' < m && q * m + r == q' * m + r'
    ensures q == q' && r == r'
  {
    if q < q' { Farther(q, q', m); } else if q' < q { Farther(q', q, m); }
  }

  lemma CellWhole(c: nat, sw: nat)
    requires sw > 0
    ensures Cell(Col(c, sw), Row(c, sw), sw) == c
  {}

  lemma CellInGrid(i: nat, j: nat, sw: nat, sh: nat)
    requires i < sw && j < sh
    ensures Cell(i, j, sw) < sw * sh
  {
    assert (sh - j - 1) * sw >= 0;
    assert sw * sh == j * sw + sw + (sh - j - 1) * sw;
  }

  lemma RowInGrid(c: nat, sw: nat, sh: nat)
    requires sw > 0 && c < sw * sh
    ensures Row(c, sw) < sh
  {
    var q, r := c / sw, c % sw;
    assert c == q * sw + r;
    if q >= sh { assert (q - sh) * sw >= 0; }
  }

  lemma CellSteps(i: nat, j: nat, sw: nat)
    ensures Cell(i, j, sw) + 1 == Cell(i + 1, j, sw) && Cell(sw, j, sw) == Cell(0, j + 1, sw)
    ensures Cell(0, 0, sw) == 0 && Cell(0, j, sw) == sw * j
  {}
}
