/** Exact integer geometry of block parts: cells, translation and the 90°
    rotation about a pivot that Block.rotate performs. All of it is on values;
    the classes in module Blocks are specified by these functions. */
module Geometry {

  /** A position in block coordinates. */
  datatype Cell = Cell(x: int, y: int)

  /** The offset of `c` from `origin`. */
  function Offset(c: Cell, origin: Cell): Cell {
    Cell(c.x - origin.x, c.y - origin.y)
  }

  /** `c` moved by `(dx, dy)`: what BlockPart.move does to a position. */
  function Shift(c: Cell, dx: int, dy: int): Cell {
    Cell(c.x + dx, c.y + dy)
  }

  /** Every cell of `cells` moved by the same `(dx, dy)`, order kept. */
  function Translate(cells: seq<Cell>, dx: int, dy: int): seq<Cell>
  {
    seq(|cells|, i requires 0 <= i < |cells| => Shift(cells[i], dx, dy))
  }

  /** Moving by `(dx, dy)` and then by `(-dx, -dy)` restores every cell. */
  lemma TranslateUndo(cells: seq<Cell>, dx: int, dy: int)
    ensures Translate(Translate(cells, dx, dy), -dx, -dy) == cells
  {
    var r := Translate(Translate(cells, dx, dy), -dx, -dy);
    assert forall i :: 0 <= i < |cells| ==> r[i] == cells[i];
  }

  /** Two moves add up. */
  lemma TranslateCompose(cells: seq<Cell>, dx1: int, dy1: int, dx2: int, dy2: int)
    ensures Translate(Translate(cells, dx1, dy1), dx2, dy2) == Translate(cells, dx1 + dx2, dy1 + dy2)
  {
    var r := Translate(Translate(cells, dx1, dy1), dx2, dy2);
    var s := Translate(cells, dx1 + dx2, dy1 + dy2);
    assert forall i :: 0 <= i < |cells| ==> r[i] == s[i];
  }

  /** The quarter turn of an offset: `"cw"` sends (dx, dy) to (-dy, dx), and
      every other direction token sends it to (dy, -dx). */
  function RotateOffset(o: Cell, dir: string): Cell {
    if dir == "cw" then Cell(-o.y, o.x) else Cell(o.y, -o.x)
  }

  /** `c` turned a quarter about `pivot`. */
  function RotateAbout(pivot: Cell, c: Cell, dir: string): (r: Cell)
    ensures Offset(r, pivot) == RotateOffset(Offset(c, pivot), dir)
  {
    var o := RotateOffset(Offset(c, pivot), dir);
    Cell(pivot.x + o.x, pivot.y + o.y)
  }

  /** Every cell of `cells` turned a quarter about the same pivot. */
  function RotateAll(pivot: Cell, cells: seq<Cell>, dir: string): seq<Cell>
  {
    seq(|cells|, i requires 0 <= i < |cells| => RotateAbout(pivot, cells[i], dir))
  }

  /** Block.rotate on positions: the first cell is the pivot and stays put;
      every other cell's offset from it is turned a quarter. */
  function RotateCells(cells: seq<Cell>, dir: string): (r: seq<Cell>)
    ensures |r| == |cells|
    ensures |cells| > 0 ==> r[0] == cells[0]
    ensures forall i :: 0 < i < |cells| ==>
      Offset(r[i], r[0]) == RotateOffset(Offset(cells[i], cells[0]), dir)
  {
    if cells == [] then [] else [cells[0]] + RotateAll(cells[0], cells[1..], dir)
  }

  function Abs(n: int): nat {
    if n < 0 then -n else n
  }

  /** Quarter turns are isometries of the lattice: the Manhattan and the
      squared Euclidean length of an offset are kept. */
  lemma RotateOffsetIsometry(o: Cell, dir: string)
    ensures Abs(RotateOffset(o, dir).x) + Abs(RotateOffset(o, dir).y) == Abs(o.x) + Abs(o.y)
    ensures RotateOffset(o, dir).x * RotateOffset(o, dir).x + RotateOffset(o, dir).y * RotateOffset(o, dir).y
         == o.x * o.x + o.y * o.y
  {
  }

  /** A `"cw"` turn and a turn in any other direction undo each other. */
  lemma RotateOffsetInverse(o: Cell, dir: string)
    requires dir != "cw"
    ensures RotateOffset(RotateOffset(o, "cw"), dir) == o
    ensures RotateOffset(RotateOffset(o, dir), "cw") == o
  {
  }

  /** Rotating `"cw"` and then in any other direction restores every cell,
      and so does the opposite order. */
  lemma RotateUndo(cells: seq<Cell>, dir: string)
    requires dir != "cw"
    ensures RotateCells(RotateCells(cells, "cw"), dir) == cells
    ensures RotateCells(RotateCells(cells, dir), "cw") == cells
  {
    var a := RotateCells(RotateCells(cells, "cw"), dir);
    var b := RotateCells(RotateCells(cells, dir), "cw");
    forall i | 0 < i < |cells| ensures a[i] == cells[i] && b[i] == cells[i] {
      RotateOffsetInverse(Offset(cells[i], cells[0]), dir);
    }
  }

  /** `n` successive turns in direction `dir`. */
  function RotateTimes(cells: seq<Cell>, dir: string, n: nat): (r: seq<Cell>)
    ensures |r| == |cells|
    ensures |cells| > 0 ==> r[0] == cells[0]
  {
    if n == 0 then cells else RotateCells(RotateTimes(cells, dir, n - 1), dir)
  }

  /** Four turns in the same direction are the identity. */
  lemma RotateFour(cells: seq<Cell>, dir: string)
    ensures RotateTimes(cells, dir, 4) == cells
  {
    var r1 := RotateCells(cells, dir);
    var r2 := RotateCells(r1, dir);
    var r3 := RotateCells(r2, dir);
    var r4 := RotateCells(r3, dir);
    assert RotateTimes(cells, dir, 1) == r1;
    assert RotateTimes(cells, dir, 2) == r2;
    assert RotateTimes(cells, dir, 3) == r3;
    forall i | 0 < i < |cells| ensures r4[i] == cells[i] {
      assert Offset(r4[i], cells[0]) == Offset(cells[i], cells[0]);
    }
  }

  /** Turning commutes with moving: a moved piece turns into the moved turn. */
  lemma RotateTranslate(cells: seq<Cell>, dir: string, dx: int, dy: int)
    ensures RotateCells(Translate(cells, dx, dy), dir) == Translate(RotateCells(cells, dir), dx, dy)
  {
    var a := RotateCells(Translate(cells, dx, dy), dir);
    var b := Translate(RotateCells(cells, dir), dx, dy);
    forall i | 0 < i < |cells| ensures a[i] == b[i] {
      assert Offset(Translate(cells, dx, dy)[i], Translate(cells, dx, dy)[0]) == Offset(cells[i], cells[0]);
    }
  }

  /** No two cells of `cells` coincide. */
  predicate Distinct(cells: seq<Cell>) {
    forall i, j :: 0 <= i < j < |cells| ==> cells[i] != cells[j]
  }

  /** A turn never makes two cells of a piece coincide. */
  lemma RotateDistinct(cells: seq<Cell>, dir: string)
    requires Distinct(cells)
    ensures Distinct(RotateCells(cells, dir))
  {
    var r := RotateCells(cells, dir);
    forall i, j | 0 <= i < j < |r| ensures r[i] != r[j] {
      assert Offset(r[j], r[0]) == RotateOffset(Offset(cells[j], cells[0]), dir);
      if i == 0 {
        assert Offset(cells[j], cells[0]) != Cell(0, 0);
      } else {
        assert Offset(r[i], r[0]) == RotateOffset(Offset(cells[i], cells[0]), dir);
        assert Offset(cells[i], cells[0]) != Offset(cells[j], cells[0]);
      }
    }
  }

  /** A move never makes two cells coincide. */
  lemma TranslateDistinct(cells: seq<Cell>, dx: int, dy: int)
    requires Distinct(cells)
    ensures Distinct(Translate(cells, dx, dy))
  {
  }

  /** The cells that get drawn, in order: row 0 lies outside the field and
      is skipped. */
  function OnField(cells: seq<Cell>): (r: seq<Cell>)
    ensures |r| <= |cells|
    ensures forall c :: c in r <==> c in cells && c.y != 0
  {
    if cells == [] then []
    else
      var last := cells[|cells| - 1];
      OnField(cells[..|cells| - 1]) + (if last.y != 0 then [last] else [])
  }

  /** Extending the drawn prefix by one cell draws that cell exactly when it
      is off row 0. */
  lemma OnFieldStep(cells: seq<Cell>, i: int)
    requires 0 <= i < |cells|
    ensures OnField(cells[..i + 1]) == OnField(cells[..i]) + (if cells[i].y != 0 then [cells[i]] else [])
  {
    assert cells[..i + 1][..i] == cells[..i];
  }
}
