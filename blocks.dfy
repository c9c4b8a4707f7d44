/** The mutable objects of the piece engine: a BlockPart is one cell whose
    position `move` changes in place, and a Block owns four parts and moves and
    rotates them in place. Each method is specified by the value functions of
    modules Geometry and Shapes. */
module Blocks {
  import opened Catalogue
  import opened Geometry
  import opened Shapes

  /** One cell of a block. Its kind (colour or special effect) is fixed at
      construction; only its position changes. */
  class BlockPart {
    const kind: PartKind
    var x: int
    var y: int

    constructor (kind: PartKind, x: int := 0, y: int := 0)
      ensures this.kind == kind && this.x == x && this.y == y
    {
      this.kind := kind;
      this.x := x;
      this.y := y;
    }

    /** Adds the delta to the position. */
    method Move(dx: int, dy: int)
      modifies this
      ensures x == old(x) + dx && y == old(y) + dy
    {
      x := x + dx;
      y := y + dy;
    }

    /** The guard in front of the drawing code: a part on row 0 is outside the
        field and draws nothing. Reports whether the part was drawn. */
    method Draw() returns (drawn: bool)
      ensures drawn <==> y != 0
    {
      if y == 0 {
        return false;
      }
      drawn := true;
    }
  }

  /** The positions of `ps`, in order. */
  function CellsOf(ps: seq<BlockPart>): seq<Cell>
    reads ps
  {
    seq(|ps|, i requires 0 <= i < |ps| reads ps => Cell(ps[i].x, ps[i].y))
  }

  /** Four new parts of kind `kind` at the cells of `layout`, in order. */
  method NewParts(layout: seq<Cell>, kind: PartKind) returns (a: BlockPart, b: BlockPart, c: BlockPart, d: BlockPart)
    requires |layout| == 4
    ensures fresh(a) && fresh(b) && fresh(c) && fresh(d)
    ensures a != b && a != c && a != d && b != c && b != d && c != d
    ensures Cell(a.x, a.y) == layout[0] && Cell(b.x, b.y) == layout[1]
    ensures Cell(c.x, c.y) == layout[2] && Cell(d.x, d.y) == layout[3]
    ensures a.kind == kind && b.kind == kind && c.kind == kind && d.kind == kind
  {
    a := new BlockPart(kind, layout[0].x, layout[0].y);
    b := new BlockPart(kind, layout[1].x, layout[1].y);
    c := new BlockPart(kind, layout[2].x, layout[2].y);
    d := new BlockPart(kind, layout[3].x, layout[3].y);
  }

  /** Four parts standing at the four cells of `layout` have `layout` as
      their positions. */
  lemma CellsOfFour(a: BlockPart, b: BlockPart, c: BlockPart, d: BlockPart, layout: seq<Cell>)
    requires |layout| == 4
    requires Cell(a.x, a.y) == layout[0] && Cell(b.x, b.y) == layout[1]
    requires Cell(c.x, c.y) == layout[2] && Cell(d.x, d.y) == layout[3]
    ensures CellsOf([a, b, c, d]) == layout
  {
    var r := CellsOf([a, b, c, d]);
    assert r[0] == layout[0] && r[1] == layout[1] && r[2] == layout[2] && r[3] == layout[3];
  }

  /** Cells that each lie `(dx, dy)` from the cell at the same place in
      `before` are `before` translated. */
  lemma TranslatedCells(before: seq<Cell>, after: seq<Cell>, dx: int, dy: int)
    requires |after| == |before|
    requires forall k :: 0 <= k < |before| ==> after[k] == Cell(before[k].x + dx, before[k].y + dy)
    ensures after == Translate(before, dx, dy)
  {
  }

  /** A block: an ordered list of parts whose first part is the pivot of
      rotation. Its shape selects the rotation it performs. */
  class Block {
    const shape: Shape
    var parts: seq<BlockPart>

    /** No part is listed twice, so moving one part moves no other. */
    ghost predicate Separate()
      reads this
    {
      forall i, j :: 0 <= i < j < |parts| ==> parts[i] != parts[j]
    }

    /** A complete block: four separate parts. */
    ghost predicate Valid()
      reads this
    {
      |parts| == 4 && Separate()
    }

    /** The positions of the parts, pivot first. */
    function Cells(): seq<Cell>
      reads this, parts
    {
      CellsOf(parts)
    }

    /** The constructor of each shape's subclass: four parts of the shape's
        colour at the shape's layout, added pivot first, then moved by the
        spawn point. */
    constructor (s: Shape, x: int, y: int)
      ensures Valid() && shape == s
      ensures Cells() == Spawned(s, x, y)
      ensures fresh(parts[0]) && fresh(parts[1]) && fresh(parts[2]) && fresh(parts[3])
      ensures parts[0].kind == parts[1].kind == parts[2].kind == parts[3].kind == Standard(ShapeColour(s))
    {
      shape := s;
      parts := [];
      new;
      Fill(Layout(s), Standard(ShapeColour(s)));
      Move(x, y);
    }

    /** Creates four parts of kind `kind` at the cells of `layout` and adds
        them, pivot first, to an empty block. */
    method Fill(layout: seq<Cell>, kind: PartKind)
      requires |layout| == 4 && parts == []
      modifies this
      ensures Valid() && Cells() == layout
      ensures fresh(parts[0]) && fresh(parts[1]) && fresh(parts[2]) && fresh(parts[3])
      ensures parts[0].kind == parts[1].kind == parts[2].kind == parts[3].kind == kind
    {
      var a, b, c, d := NewParts(layout, kind);
      Add(a, b, c, d);
      CellsOfFour(a, b, c, d, layout);
      assert parts == [a, b, c, d];
      assert Cells() == layout;
    }

    /** Appends four parts to the list. */
    method Add(a: BlockPart, b: BlockPart, c: BlockPart, d: BlockPart)
      modifies this
      ensures parts == old(parts) + [a, b, c, d]
    {
      parts := parts + [a, b, c, d];
    }

    /** Moves every part by the same delta. */
    method Move(dx: int, dy: int)
      requires Valid()
      modifies parts
      ensures parts == old(parts) && Valid()
      ensures Cells() == Translate(old(Cells()), dx, dy)
    {
      var i := 0;
      while i < |parts|
        invariant 0 <= i <= |parts|
        invariant forall k :: 0 <= k < i ==> parts[k].x == old(parts[k].x) + dx && parts[k].y == old(parts[k].y) + dy
        invariant forall k :: i <= k < |parts| ==> parts[k].x == old(parts[k].x) && parts[k].y == old(parts[k].y)
      {
        parts[i].Move(dx, dy);
        i := i + 1;
      }
      TranslatedCells(old(Cells()), Cells(), dx, dy);
    }

    /** Rotates the parts a quarter turn about the first part, in place;
        an O block does not rotate. */
    method Rotate(dir: string := "cw")
      requires Valid()
      modifies parts
      ensures parts == old(parts) && Valid()
      ensures Cells() == ShapeRotate(shape, old(Cells()), dir)
    {
      if shape == O {
        return;
      }
      var px := parts[0].x;
      var py := parts[0].y;
      var i := 1;
      while i < |parts|
        invariant 1 <= i <= |parts|
        invariant parts[0].x == px && parts[0].y == py
        invariant forall k :: 1 <= k < i ==>
          Cell(parts[k].x, parts[k].y) == RotateAbout(Cell(px, py), old(Cell(parts[k].x, parts[k].y)), dir)
        invariant forall k :: i <= k < |parts| ==> parts[k].x == old(parts[k].x) && parts[k].y == old(parts[k].y)
      {
        var bp := parts[i];
        bp.x := bp.x - px;
        bp.y := bp.y - py;
        var ox := bp.x;
        if dir == "cw" {
          bp.x := bp.y * -1;
          bp.y := ox;
        } else {
          bp.x := bp.y;
          bp.y := ox * -1;
        }
        bp.x := bp.x + px;
        bp.y := bp.y + py;
        i := i + 1;
      }
      assert old(Cells())[0] == Cell(px, py);
    }

    /** Draws every part in order and reports the cells that were drawn. */
    method Draw() returns (drawn: seq<Cell>)
      ensures drawn == OnField(Cells())
    {
      ghost var cells := Cells();
      drawn := [];
      var i := 0;
      while i < |parts|
        invariant 0 <= i <= |parts| == |cells|
        invariant drawn == OnField(cells[..i])
      {
        var here := Cell(parts[i].x, parts[i].y);
        assert here == cells[i];
        var shown := parts[i].Draw();
        if shown {
          drawn := drawn + [here];
        }
        OnFieldStep(cells, i);
        i := i + 1;
      }
      assert cells[..i] == cells;
    }
  }

  /** A vertical I block spawned at `(x, y)` drops two rows, turns with
      the default direction to lie flat in row `y + 3`, and turns back with
      any other token to where it stood. */
  method DropAndTurnI(x: int, y: int) returns (b: Block, flat: seq<Cell>)
    ensures fresh(b) && b.Valid() && b.shape == I
    ensures flat == [Cell(x, y + 3), Cell(x + 1, y + 3), Cell(x - 1, y + 3), Cell(x - 2, y + 3)]
    ensures b.Cells() == Spawned(I, x, y + 2)
  {
    b := new Block(I, x, y);
    b.Move(0, 1);
    SpawnedDrop(I, x, y);
    b.Move(0, 1);
    SpawnedDrop(I, x, y + 1);
    ghost var upright := b.Cells();
    b.Rotate();
    flat := b.Cells();
    TurnI(x, y + 2);
    b.Rotate("ccw");
    RotateUndo(upright, "ccw");
  }
}
