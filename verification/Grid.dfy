/** The uniform grid under the zone manager: positions, cells, zone ids and 3x3 blocks. */
module Grid {

  /** static_cast<int> of a float: the fraction is dropped, toward zero. */
  function Truncate(x: real): int {
    if x >= 0.0 then x.Floor else -((-x).Floor)
  }

  /** Integer division of the source language: the quotient is rounded toward zero. */
  function Quotient(a: int, n: int): int
    requires n > 0
  {
    if a >= 0 then a / n else -((-a) / n)
  }

  function Cell(x: real, n: int): int
    requires n > 0
  {
    Quotient(Truncate(x), n)
  }

  function CellId(zx: int, zy: int): int {
    zx + 1000 * zy
  }

  function ZoneIdAt(x: real, y: real, n: int): int
    requires n > 0
  {
    CellId(Cell(x, n), Cell(y, n))
  }

  /** Ids of the 3x3 block around a cell, in the order of the source's two loops. */
  function Block(zx: int, zy: int): seq<int> {
    [ CellId(zx - 1, zy - 1), CellId(zx - 1, zy), CellId(zx - 1, zy + 1),
      CellId(zx, zy - 1), CellId(zx, zy), CellId(zx, zy + 1),
      CellId(zx + 1, zy - 1), CellId(zx + 1, zy), CellId(zx + 1, zy + 1) ]
  }

  predicate Adjacent(a: int, b: int) {
    -1 <= a - b <= 1
  }

  function Distance(x: real, y: real): real {
    if x >= y then x - y else y - x
  }

  // ----- cells as intervals -----

  lemma QuotientBounds(a: int, n: int)
    requires n > 0
    ensures var k := Quotient(a, n);
            && (k > 0 ==> k * n <= a < k * n + n)
            && (k == 0 ==> -n < a < n)
            && (k < 0 ==> k * n - n < a <= k * n)
  {
    if a >= 0 {
      assert a == (a / n) * n + a % n;
    } else {
      var b := -a;
      assert b == (b / n) * n + b % n;
      assert (-(b / n)) * n == -((b / n) * n);
    }
  }

  /** Cell 0 is twice as wide as every other cell, because both roundings go toward zero. */
  lemma CellInterval(x: real, n: int)
    requires n > 0
    ensures var k := Cell(x, n);
            && (k > 0 ==> (k * n) as real <= x < (k * n + n) as real)
            && (k == 0 ==> -(n as real) < x < n as real)
            && (k < 0 ==> (k * n - n) as real < x <= (k * n) as real)
  {
    QuotientBounds(Truncate(x), n);
  }

  lemma ScaledGap(a: int, b: int, gap: int, n: int)
    requires n > 0 && a >= b + gap
    ensures a * n >= b * n + gap * n
  {
    assert (b + gap) * n == b * n + gap * n;
    assert (a - b - gap) * n >= 0;
  }

  /** Two positions at most one zone side apart on an axis lie in adjacent cells of that axis. */
  lemma CloseIsAdjacent(x: real, y: real, n: int)
    requires n > 0 && Distance(x, y) <= n as real
    ensures Adjacent(Cell(x, n), Cell(y, n))
  {
    var lo, hi := if x <= y then x else y, if x <= y then y else x;
    var a, b := Cell(lo, n), Cell(hi, n);
    CellInterval(lo, n);
    CellInterval(hi, n);
    if b > a + 1 { ScaledGap(b, a, 2, n); }
    if a > b { ScaledGap(a, b, 1, n); }
  }

  /** Three zone sides apart on an axis is too far for adjacent cells. */
  lemma FarIsNotAdjacent(x: real, y: real, n: int)
    requires n > 0 && Distance(x, y) >= (3 * n) as real
    ensures !Adjacent(Cell(x, n), Cell(y, n))
  {
    var lo, hi := if x <= y then x else y, if x <= y then y else x;
    var a, b := Cell(lo, n), Cell(hi, n);
    CellInterval(lo, n);
    CellInterval(hi, n);
    if b <= a + 1 { ScaledGap(a, b, -1, n); }
  }

  /** Neither radius can be improved: every distance above one side is missed somewhere, and
      every distance below three sides is still reached somewhere. */
  lemma RadiiAreTight(d: real, n: int) returns (x: real, y: real, u: real, v: real)
    requires n > 0 && n as real < d < (3 * n) as real
    ensures Distance(x, y) == d && !Adjacent(Cell(x, n), Cell(y, n))
    ensures Distance(u, v) == d && Adjacent(Cell(u, n), Cell(v, n))
  {
    var side := n as real;
    y := if d <= 2.0 * side then 3.0 * side else side + d;
    x := y - d;
    PositiveCell(y, 3, n);
    PositiveCell(x, 2, n);
    // v in cell 1, u at distance d in cell 0
    v := ((if d <= 2.0 * side then side else d - side) + 2.0 * side) / 2.0;
    u := v - d;
    PositiveCell(v, 1, n);
    PositiveCell(v, 2, n);
    PositiveCell(u, 1, n);
    CellInterval(u, n);
    if Cell(u, n) < 0 { ScaledGap(-1, Cell(u, n), 0, n); }
  }

  /** Cell k and the cells beyond it begin at k zone sides. */
  lemma PositiveCell(x: real, k: int, n: int)
    requires n > 0 && k > 0
    ensures Cell(x, n) >= k <==> x >= (k * n) as real
  {
    CellInterval(x, n);
    var j := Cell(x, n);
    ScaledGap(k, 0, 1, n);
    if j >= k { ScaledGap(j, k, 0, n); } else { ScaledGap(k, j, 1, n); }
  }

  // ----- zone ids -----

  /** The nine ids of a block are pairwise different. */
  lemma BlockIsDistinct(zx: int, zy: int)
    ensures forall i, j :: 0 <= i < j < 9 ==> Block(zx, zy)[i] != Block(zx, zy)[j]
  {
  }

  /** The cell (px, py), moved by k rows and 1000*k columns, is adjacent on both axes. */
  predicate AdjacentAlias(zx: int, zy: int, px: int, py: int, k: int) {
    Adjacent(px + 1000 * k, zx) && Adjacent(py - k, zy)
  }

  /** For all cells: a block contains the id of a cell exactly when that cell, shifted by some k
      rows and 1000*k columns, is adjacent on both axes. */
  lemma BlockMembership(zx: int, zy: int, px: int, py: int)
    ensures CellId(px, py) in Block(zx, zy) <==> exists k :: AdjacentAlias(zx, zy, px, py, k)
  {
    if CellId(px, py) in Block(zx, zy) {
      var dx, dy := BlockOffsets(zx, zy, CellId(px, py));
      assert AdjacentAlias(zx, zy, px, py, py - zy - dy);
    }
    if k :| AdjacentAlias(zx, zy, px, py, k) {
      BlockHolds(zx, zy, px + 1000 * k - zx, py - k - zy);
      AliasHasSameId(px, py, k);
    }
  }

  lemma AliasHasSameId(px: int, py: int, k: int)
    ensures CellId(px + 1000 * k, py - k) == CellId(px, py)
  {
  }

  lemma BlockOffsets(zx: int, zy: int, id: int) returns (dx: int, dy: int)
    requires id in Block(zx, zy)
    ensures -1 <= dx <= 1 && -1 <= dy <= 1 && id == CellId(zx + dx, zy + dy)
  {
    var i :| 0 <= i < 9 && Block(zx, zy)[i] == id;
    dx, dy := i / 3 - 1, i % 3 - 1;
  }

  lemma BlockHolds(zx: int, zy: int, dx: int, dy: int)
    requires -1 <= dx <= 1 && -1 <= dy <= 1
    ensures CellId(zx + dx, zy + dy) in Block(zx, zy)
  {
    assert Block(zx, zy)[3 * (dx + 1) + dy + 1] == CellId(zx + dx, zy + dy);
  }

  predicate InStrip(zx: int) {
    -499 <= zx <= 499
  }

  /** Inside the strip of 999 columns, ids do not alias: the block is the 3x3 neighbourhood. */
  lemma BlockInStrip(zx: int, zy: int, px: int, py: int)
    requires InStrip(zx) && InStrip(px)
    ensures CellId(px, py) in Block(zx, zy) <==> Adjacent(px, zx) && Adjacent(py, zy)
  {
    BlockMembership(zx, zy, px, py);
    if k :| AdjacentAlias(zx, zy, px, py, k) {
      assert k == 0;
    }
    if Adjacent(px, zx) && Adjacent(py, zy) {
      assert AdjacentAlias(zx, zy, px, py, 0);
    }
  }

  /** One column further the block already reaches a cell 999 columns away. */
  lemma BlockAliasesOutsideStrip()
    ensures CellId(-500, 1) in Block(499, 0) && !Adjacent(-500, 499) && !InStrip(-500)
  {
    assert Block(499, 0)[7] == CellId(-500, 1);
  }

  /** Being in each other's block is mutual, aliases included. */
  lemma BlockIsMutual(zx: int, zy: int, px: int, py: int)
    ensures CellId(px, py) in Block(zx, zy) <==> CellId(zx, zy) in Block(px, py)
  {
    if k :| AdjacentAlias(zx, zy, px, py, k) { assert AdjacentAlias(px, py, zx, zy, -k); }
    if k :| AdjacentAlias(px, py, zx, zy, k) { assert AdjacentAlias(zx, zy, px, py, -k); }
    BlockMembership(zx, zy, px, py);
    BlockMembership(px, py, zx, zy);
  }

  lemma OwnCellInBlock(zx: int, zy: int)
    ensures CellId(zx, zy) in Block(zx, zy)
  {
    assert Block(zx, zy)[4] == CellId(zx, zy);
  }
}
