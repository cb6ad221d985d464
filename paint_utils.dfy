/**
 * The integer layout geometry of the classic world's board (PaintUtils.java):
 * field borders 4 pixels thick, field interiors 60 pixels wide, the board drawn
 * 20 pixels from the panel's corner, and rows flipped so that row 0 is at the bottom.
 */
module PaintUtils {

  const FieldInnerSize: int := 60
  const FieldBorderThickness: int := 4
  const FieldInnerOffset: int := 4
  const BoardOffset: int := 20

  datatype Point = Point(x: int, y: int)
  datatype Rectangle = Rectangle(x: int, y: int, width: int, height: int)

  function Abs(n: int): int
  {
    if n < 0 then -n else n
  }

  /** getBoardSize: borders around and between the fields plus the field interiors. */
  function BoardSize(worldWidth: int, worldHeight: int): (p: Point)
    ensures p.x == 64 * worldWidth + 4 && p.y == 64 * worldHeight + 4
  {
    Point(FieldBorderThickness * (worldWidth + 1) + FieldInnerSize * worldWidth,
          FieldBorderThickness * (worldHeight + 1) + FieldInnerSize * worldHeight)
  }

  /** The row in which a field is drawn, counted from the top of the board. */
  function DrawnRow(y: int, worldHeight: int): int
  {
    Abs(y - worldHeight + 1)
  }

  /** getUpperLeftCornerInField: the corner of the interior of field (x, y), inset by the inner offset. */
  function UpperLeftCornerInField(x: int, y: int, worldHeight: int): (p: Point)
    ensures p.x == 28 + 64 * x
    ensures p.y == 28 + 64 * DrawnRow(y, worldHeight)
  {
    var width := BoardOffset + FieldBorderThickness + x * (FieldBorderThickness + FieldInnerSize);
    var height := BoardOffset + FieldBorderThickness
                  + DrawnRow(y, worldHeight) * (FieldBorderThickness + FieldInnerSize);
    Point(width + FieldInnerOffset, height + FieldInnerOffset)
  }

  /** getFieldBounds: a square of side 60 - 2 * 4 at the upper-left corner of the field. */
  function FieldBounds(x: int, y: int, worldHeight: int): (r: Rectangle)
    ensures r.width == 52 && r.height == 52
    ensures Point(r.x, r.y) == UpperLeftCornerInField(x, y, worldHeight)
  {
    var upperLeft := UpperLeftCornerInField(x, y, worldHeight);
    var size := FieldInnerSize - FieldInnerOffset * 2;
    Rectangle(upperLeft.x, upperLeft.y, size, size)
  }

  /** In a world of height h, row h - 1 is drawn at the top and row 0 at the bottom. */
  lemma RowsAreFlipped(y: int, worldHeight: int)
    requires 0 <= y < worldHeight
    ensures DrawnRow(y, worldHeight) == worldHeight - 1 - y
    ensures y == worldHeight - 1 ==> UpperLeftCornerInField(0, y, worldHeight).y == 28
    ensures y == 0 ==> UpperLeftCornerInField(0, y, worldHeight).y == 28 + 64 * (worldHeight - 1)
  {
  }

  /** Horizontally neighbouring fields are 64 pixels apart, and so are vertically neighbouring ones. */
  lemma NeighboursAre64Apart(x: int, y: int, worldHeight: int)
    requires 0 <= y && y + 1 < worldHeight
    ensures UpperLeftCornerInField(x + 1, y, worldHeight).x == UpperLeftCornerInField(x, y, worldHeight).x + 64
    ensures UpperLeftCornerInField(x, y, worldHeight).y == UpperLeftCornerInField(x, y + 1, worldHeight).y + 64
  {
  }

  /** The bounds of every field of the world lie inside the board drawn at the board offset. */
  lemma FieldInsideBoard(x: int, y: int, worldWidth: int, worldHeight: int)
    requires 0 <= x < worldWidth && 0 <= y < worldHeight
    ensures var r := FieldBounds(x, y, worldHeight);
            var b := BoardSize(worldWidth, worldHeight);
            BoardOffset <= r.x && r.x + r.width <= BoardOffset + b.x &&
            BoardOffset <= r.y && r.y + r.height <= BoardOffset + b.y
  {
    RowsAreFlipped(y, worldHeight);
  }

  /** Distinct fields never overlap: their bounds are separated by at least 12 pixels of border. */
  lemma FieldsDoNotOverlap(x1: int, y1: int, x2: int, y2: int, worldHeight: int)
    requires 0 <= y1 < worldHeight && 0 <= y2 < worldHeight
    requires (x1, y1) != (x2, y2)
    ensures var r1 := FieldBounds(x1, y1, worldHeight);
            var r2 := FieldBounds(x2, y2, worldHeight);
            r1.x + r1.width + 12 <= r2.x || r2.x + r2.width + 12 <= r1.x ||
            r1.y + r1.height + 12 <= r2.y || r2.y + r2.height + 12 <= r1.y
  {
    RowsAreFlipped(y1, worldHeight);
    RowsAreFlipped(y2, worldHeight);
  }
}
