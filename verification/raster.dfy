/** The boustrophedon order on the integer grid of a scan.

    A cell is a pair of step indices: `i` along the primary axis
    (0..dP) and `j` along the secondary axis.  Row `j` of the scan is swept
    forward when `j` is even and backward when it is odd, and the scan
    moves to the next row at the end of each sweep.  Tick `n` of that order
    (counting the origin as tick 0) is row `n / (dP+1)`, offset
    `n % (dP+1)` into the row. */
module Raster {

  datatype Cell = Cell(i: int, j: int)

  /** The cell at offset `k` into row `j`. */
  function RowCell(dP: nat, j: nat, k: nat): Cell
  {
    Cell(if j % 2 == 0 then k else dP - k, j)
  }

  /** The cell reached at tick `n`. */
  function Boustro(dP: nat, n: nat): Cell
  {
    RowCell(dP, n / (dP + 1), n % (dP + 1))
  }

  /** The tick at offset `k` into row `j`. */
  function RowTick(dP: nat, j: nat, k: nat): nat
  {
    j * (dP + 1) + k
  }

  /** The tick at which the order reaches cell `c`: the inverse of
      `Boustro`. */
  function TickOf(dP: nat, c: Cell): nat
    requires 0 <= c.i <= dP && 0 <= c.j
  {
    RowTick(dP, c.j, if c.j % 2 == 0 then c.i else dP - c.i)
  }

  /** The cell inside the grid of `dP+1` by `rows` cells. */
  ghost predicate InGrid(dP: nat, rows: nat, c: Cell)
  {
    0 <= c.i <= dP && 0 <= c.j < rows
  }

  lemma MulLe(a: int, b: int, m: int)
    requires m >= 0
    ensures a <= b ==> a * m <= b * m
  {
    assert b * m - a * m == (b - a) * m;
  }

  lemma MulOfSmall(a: int, d: int, e: int)
    requires d > 0 && -d < e < d && a * d == e
    ensures a == 0
  {
    MulLe(1, a, d);
    MulLe(a, -1, d);
  }

  lemma DivModUnique(n: int, d: int, q: int, r: int)
    requires d > 0 && 0 <= r < d && n == q * d + r
    ensures n / d == q && n % d == r
  {
    var q', r' := n / d, n % d;
    assert n == q' * d + r';
    assert (q - q') * d == q * d - q' * d;
    MulOfSmall(q - q', d, r' - r);
  }

  /** Row and offset of a tick are recovered from the tick. */
  lemma RowTickDivMod(dP: nat, j: nat, k: nat)
    requires k <= dP
    ensures RowTick(dP, j, k) / (dP + 1) == j && RowTick(dP, j, k) % (dP + 1) == k
  {
    DivModUnique(RowTick(dP, j, k), dP + 1, j, k);
  }

  lemma TickDecomposes(dP: nat, n: nat)
    ensures n == RowTick(dP, n / (dP + 1), n % (dP + 1))
  {
  }

  /** Ticks are ordered as (row, offset) pairs are ordered
      lexicographically. */
  lemma RowTickOrder(dP: nat, j: nat, k: nat, j': nat, k': nat)
    requires k <= dP && k' <= dP
    ensures RowTick(dP, j, k) < RowTick(dP, j', k') <==> j < j' || (j == j' && k < k')
  {
    MulLe(j + 1, j', dP + 1);
    MulLe(j' + 1, j, dP + 1);
    assert (j + 1) * (dP + 1) == RowTick(dP, j, dP) + 1;
    assert (j' + 1) * (dP + 1) == RowTick(dP, j', dP) + 1;
  }

  /** Every cell of a grid with `rows` rows is reached at a tick below
      (dP+1)*rows, and `Boustro` maps that tick back to the cell. */
  lemma TickOfInverse(dP: nat, rows: nat, c: Cell)
    requires InGrid(dP, rows, c)
    ensures TickOf(dP, c) < (dP + 1) * rows && Boustro(dP, TickOf(dP, c)) == c
  {
    var k := if c.j % 2 == 0 then c.i else dP - c.i;
    RowTickDivMod(dP, c.j, k);
    RowTickOrder(dP, c.j, k, rows, 0);
  }

  /** Every tick below (dP+1)*rows reaches a cell of the grid, and `TickOf`
      maps that cell back to the tick. */
  lemma BoustroInverse(dP: nat, rows: nat, n: nat)
    requires n < (dP + 1) * rows
    ensures InGrid(dP, rows, Boustro(dP, n)) && TickOf(dP, Boustro(dP, n)) == n
  {
    var j, k := n / (dP + 1), n % (dP + 1);
    TickDecomposes(dP, n);
    RowTickOrder(dP, j, k, rows, 0);
  }

  /** `Boustro` and `TickOf` are inverse: the order is a bijection between
      the ticks 0..(dP+1)*rows-1 and the cells of a grid with `rows` rows,
      so it visits every cell exactly once. */
  lemma BoustroBijection(dP: nat, rows: nat)
    ensures forall c :: InGrid(dP, rows, c) ==>
              TickOf(dP, c) < (dP + 1) * rows && Boustro(dP, TickOf(dP, c)) == c
    ensures forall n: nat :: n < (dP + 1) * rows ==>
              InGrid(dP, rows, Boustro(dP, n)) && TickOf(dP, Boustro(dP, n)) == n
  {
    forall c | InGrid(dP, rows, c)
      ensures TickOf(dP, c) < (dP + 1) * rows && Boustro(dP, TickOf(dP, c)) == c
    {
      TickOfInverse(dP, rows, c);
    }
    forall n: nat | n < (dP + 1) * rows
      ensures InGrid(dP, rows, Boustro(dP, n)) && TickOf(dP, Boustro(dP, n)) == n
    {
      BoustroInverse(dP, rows, n);
    }
  }

  /** The offset into the last row at which the scan ends: the far end when
      the last row index is even, the near end (its turnover cell) when it
      is odd. */
  function LastOffset(dP: nat, dS: nat): nat
  {
    if dS % 2 == 0 then dP else 0
  }

  /** The tick of the last scan cell. */
  function LastTick(dP: nat, dS: nat): nat
  {
    RowTick(dP, dS, LastOffset(dP, dS))
  }

  /** The scan ends at the far corner, whatever the parity. */
  lemma LastCellIsCorner(dP: nat, dS: nat)
    ensures Boustro(dP, LastTick(dP, dS)) == Cell(dP, dS)
  {
    RowTickDivMod(dP, dS, LastOffset(dP, dS));
  }

  /** Before its last tick the order never stands on the far corner. */
  lemma CornerOnlyAtEnd(dP: nat, dS: nat, n: nat)
    requires dP >= 1 && n < LastTick(dP, dS)
    ensures Boustro(dP, n) != Cell(dP, dS)
  {
    var j, k := n / (dP + 1), n % (dP + 1);
    TickDecomposes(dP, n);
    RowTickOrder(dP, j, k, dS, LastOffset(dP, dS));
  }

  /** With an even number of secondary divisions the ticks 0..LastTick are
      exactly the (dP+1)*(dS+1) cells of the grid, each once. */
  lemma EvenCoversGrid(dP: nat, dS: nat)
    requires dS % 2 == 0
    ensures LastTick(dP, dS) + 1 == (dP + 1) * (dS + 1)
    ensures forall c :: InGrid(dP, dS + 1, c) ==> TickOf(dP, c) <= LastTick(dP, dS) && Boustro(dP, TickOf(dP, c)) == c
    ensures forall n: nat :: n <= LastTick(dP, dS) ==> InGrid(dP, dS + 1, Boustro(dP, n))
  {
    assert (dP + 1) * (dS + 1) == dS * (dP + 1) + dP + 1;
    BoustroBijection(dP, dS + 1);
  }

  /** With an odd number of secondary divisions the order stops on the
      turnover cell of the last row: that row is reached only at the primary
      maximum, and the dP other cells of the row are never reached. */
  lemma OddSkipsLastRow(dP: nat, dS: nat)
    requires dS % 2 == 1
    ensures LastTick(dP, dS) + 1 == (dP + 1) * dS + 1
    ensures forall n: nat :: n <= LastTick(dP, dS) && Boustro(dP, n).j == dS ==> Boustro(dP, n).i == dP
  {
    forall n: nat | n <= LastTick(dP, dS) && Boustro(dP, n).j == dS
      ensures Boustro(dP, n).i == dP
    {
      TickDecomposes(dP, n);
      assert n % (dP + 1) == 0;
    }
  }

  /** The position in row `j` after offset `k`: the next offset in the row,
      or the start of the next row. */
  function Next(dP: nat, j: nat, k: nat): (nat, nat)
  {
    if k < dP then (j, k + 1) else (j + 1, 0)
  }

  /** Consecutive ticks are consecutive offsets, so consecutive cells are
      neighbours: one primary step within a row, or one secondary step at
      the same primary index between rows. */
  lemma NextIsNeighbour(dP: nat, j: nat, k: nat)
    requires k <= dP
    ensures var (j', k') := Next(dP, j, k);
            && RowTick(dP, j', k') == RowTick(dP, j, k) + 1
            && k' <= dP
            && var a, b := RowCell(dP, j, k), RowCell(dP, j', k');
               || (b.j == a.j && (b.i == a.i + 1 || b.i == a.i - 1))
               || (b.j == a.j + 1 && b.i == a.i)
  {
    if k == dP {
      assert RowTick(dP, j + 1, 0) == RowTick(dP, j, dP) + 1;
    }
  }
}
