/** The seven block shapes: their literal layouts, colours, the ALL_BLOCKS
    list, and which rotation each shape performs. The game has one Block
    subclass per shape; here the shape is a tag and the per-subclass
    constructor tables and rotate overrides are functions on it. */
module Shapes {
  import opened Catalogue
  import opened Geometry

  datatype Shape = I | O | T | L | J | S | Z

  /** ALL_BLOCKS, in its declared order. */
  function AllBlocks(): seq<Shape> {
    [I, T, O, L, J, S, Z]
  }

  /** The cells each shape's constructor creates, in the order it passes
      them to `add`: the first is the pivot. */
  function Layout(s: Shape): (r: seq<Cell>)
    ensures |r| == 4 && Distinct(r)
  {
    match s
    case O => [Cell(0, 0), Cell(1, 0), Cell(0, 1), Cell(1, 1)]
    case I => [Cell(0, 1), Cell(0, 0), Cell(0, 2), Cell(0, 3)]
    case T => [Cell(1, 1), Cell(0, 1), Cell(2, 1), Cell(1, 2)]
    case L => [Cell(0, 1), Cell(0, 0), Cell(0, 2), Cell(1, 2)]
    case J => [Cell(1, 1), Cell(1, 0), Cell(0, 2), Cell(1, 2)]
    case S => [Cell(0, 1), Cell(0, 0), Cell(1, 1), Cell(1, 2)]
    case Z => [Cell(0, 1), Cell(1, 0), Cell(1, 1), Cell(0, 2)]
  }

  /** The standard colour every part of a shape has. */
  function ShapeColour(s: Shape): (c: Colour)
    ensures c in StandardParts()
  {
    match s
    case O => Purple
    case I => Red
    case T => Cyan
    case L => Green
    case J => Blue
    case S => Pink
    case Z => Yellow
  }

  /** The cells of a shape spawned at `(x, y)`: the layout moved by `(x, y)`. */
  function Spawned(s: Shape, x: int, y: int): seq<Cell> {
    Translate(Layout(s), x, y)
  }

  /** A spawned shape has four different cells, its pivot is the layout's
      pivot moved by the spawn point, and every cell keeps its layout offset
      from the pivot. */
  lemma SpawnedShape(s: Shape, x: int, y: int)
    ensures |Spawned(s, x, y)| == 4 && Distinct(Spawned(s, x, y))
    ensures Spawned(s, x, y)[0] == Cell(Layout(s)[0].x + x, Layout(s)[0].y + y)
    ensures forall i :: 0 <= i < 4 ==>
      Offset(Spawned(s, x, y)[i], Spawned(s, x, y)[0]) == Offset(Layout(s)[i], Layout(s)[0])
  {
    var l, r := Layout(s), Spawned(s, x, y);
    assert |r| == 4;
    forall i | 0 <= i < 4 ensures r[i] == Cell(l[i].x + x, l[i].y + y) {
    }
    TranslateDistinct(l, x, y);
  }

  /** What `rotate` does to a shape's cells: nothing for O (its override
      returns at once), the pivot rotation of Block.rotate for the others; the
      I shape's override only calls Block.rotate. */
  function ShapeRotate(s: Shape, cells: seq<Cell>, dir: string): seq<Cell> {
    if s == O then cells else RotateCells(cells, dir)
  }

  /** A series of `rotate` calls, one per direction token, in order. */
  function RotateSeries(s: Shape, cells: seq<Cell>, dirs: seq<string>): seq<Cell>
    decreases |dirs|
  {
    if dirs == [] then cells
    else RotateSeries(s, ShapeRotate(s, cells, dirs[0]), dirs[1..])
  }

  /** ALL_BLOCKS lists each of the seven shapes once. */
  lemma AllBlocksTable()
    ensures |AllBlocks()| == 7
    ensures forall s: Shape :: s in AllBlocks()
    ensures forall i, j :: 0 <= i < j < |AllBlocks()| ==> AllBlocks()[i] != AllBlocks()[j]
  {
    forall s: Shape ensures s in AllBlocks() {
      var b := AllBlocks();
      match s
      case I => assert b[0] == s;
      case T => assert b[1] == s;
      case O => assert b[2] == s;
      case L => assert b[3] == s;
      case J => assert b[4] == s;
      case S => assert b[5] == s;
      case Z => assert b[6] == s;
    }
  }

  /** Spawning BlockI at (x, y) puts its pivot at (x, y + 1) and fills the
      column x from y to y + 3. */
  lemma SpawnI(x: int, y: int)
    ensures Spawned(I, x, y)[0] == Cell(x, y + 1)
    ensures forall c :: c in Spawned(I, x, y) <==>
      c in {Cell(x, y), Cell(x, y + 1), Cell(x, y + 2), Cell(x, y + 3)}
  {
    var r := Spawned(I, x, y);
    assert r == [Cell(x, y + 1), Cell(x, y), Cell(x, y + 2), Cell(x, y + 3)];
  }

  /** Dropping a spawned shape by one row is spawning it one row lower. */
  lemma SpawnedDrop(s: Shape, x: int, y: int)
    ensures Translate(Spawned(s, x, y), 0, 1) == Spawned(s, x, y + 1)
  {
    TranslateCompose(Layout(s), x, y, 0, 1);
  }

  /** A BlockI spawned at (x, y) and turned once with the default direction
      lies flat in row y + 1: the pivot stays, and the other three parts go
      one column right and one and two columns left. */
  lemma TurnI(x: int, y: int)
    ensures ShapeRotate(I, Spawned(I, x, y), "cw") ==
      [Cell(x, y + 1), Cell(x + 1, y + 1), Cell(x - 1, y + 1), Cell(x - 2, y + 1)]
  {
    SpawnI(x, y);
    assert Spawned(I, x, y) == [Cell(x, y + 1), Cell(x, y), Cell(x, y + 2), Cell(x, y + 3)];
  }

  /** However many times, in whatever directions, an O block is rotated, its
      cells stay where they are. */
  lemma {:induction false} RotateSeriesO(cells: seq<Cell>, dirs: seq<string>)
    ensures RotateSeries(O, cells, dirs) == cells
    decreases |dirs|
  {
    if dirs != [] {
      RotateSeriesO(cells, dirs[1..]);
    }
  }

  /** Any series of rotations keeps the pivot and the number of cells. */
  lemma {:induction false} RotateSeriesPivot(s: Shape, cells: seq<Cell>, dirs: seq<string>)
    requires |cells| > 0
    ensures |RotateSeries(s, cells, dirs)| == |cells|
    ensures RotateSeries(s, cells, dirs)[0] == cells[0]
    decreases |dirs|
  {
    if dirs != [] {
      RotateSeriesPivot(s, ShapeRotate(s, cells, dirs[0]), dirs[1..]);
    }
  }

  /** For every shape, `"cw"` followed by any other direction restores every
      cell, and so does the opposite order. This holds for I as well. */
  lemma ShapeRotateUndo(s: Shape, cells: seq<Cell>, dir: string)
    requires dir != "cw"
    ensures RotateSeries(s, cells, ["cw", dir]) == cells
    ensures RotateSeries(s, cells, [dir, "cw"]) == cells
  {
    assert ["cw", dir][1..] == [dir];
    assert [dir, "cw"][1..] == ["cw"];
    var a := ShapeRotate(s, cells, "cw");
    var b := ShapeRotate(s, cells, dir);
    assert RotateSeries(s, cells, ["cw", dir]) == RotateSeries(s, a, [dir]) == ShapeRotate(s, a, dir);
    assert RotateSeries(s, cells, [dir, "cw"]) == RotateSeries(s, b, ["cw"]) == ShapeRotate(s, b, "cw");
    if s != O {
      RotateUndo(cells, dir);
    }
  }

  /** For every shape, four `"cw"` rotations restore every cell. */
  lemma ShapeRotateFour(s: Shape, cells: seq<Cell>)
    ensures RotateSeries(s, cells, ["cw", "cw", "cw", "cw"]) == cells
  {
    var q := ["cw", "cw", "cw", "cw"];
    assert q[1..] == ["cw", "cw", "cw"] && q[1..][1..] == ["cw", "cw"] && q[1..][1..][1..] == ["cw"];
    if s != O {
      RotateFour(cells, "cw");
      var r1 := RotateCells(cells, "cw");
      var r2 := RotateCells(r1, "cw");
      var r3 := RotateCells(r2, "cw");
      assert RotateTimes(cells, "cw", 1) == r1;
      assert RotateTimes(cells, "cw", 2) == r2;
      assert RotateTimes(cells, "cw", 3) == r3;
    }
  }

  /** A spawned block keeps four distinct cells through any rotation. */
  lemma ShapeRotateDistinct(s: Shape, cells: seq<Cell>, dir: string)
    requires Distinct(cells)
    ensures Distinct(ShapeRotate(s, cells, dir))
  {
    if s != O {
      RotateDistinct(cells, dir);
    }
  }
}
