/**
 * The viewing directions of the classic FOPBot world (Direction.java).
 * UP is "north" and increases y; RIGHT is "east" and increases x.
 */
module Directions {

  datatype Direction = Up | Right | Down | Left

  /** The x offset of a direction: a unit, non-zero exactly for the sideways directions. */
  function Dx(d: Direction): (r: int)
    ensures -1 <= r <= 1
    ensures r != 0 <==> d == Left || d == Right
  {
    match d
    case Up => 0
    case Right => 1
    case Down => 0
    case Left => -1
  }

  /** The y offset of a direction: a unit, non-zero exactly for UP and DOWN. */
  function Dy(d: Direction): (r: int)
    ensures -1 <= r <= 1
    ensures r != 0 <==> d == Up || d == Down
  {
    match d
    case Up => 1
    case Right => 0
    case Down => -1
    case Left => 0
  }

  /** A direction is horizontal when it does not change y. */
  predicate IsHorizontal(d: Direction)
    ensures IsHorizontal(d) <==> Dx(d) != 0
  {
    Dy(d) == 0
  }

  /** A direction is vertical when it does not change x. */
  predicate IsVertical(d: Direction)
    ensures IsVertical(d) <==> Dy(d) != 0
  {
    Dx(d) == 0
  }

  /** The direction facing the other way: both offsets negated. */
  function Opposite(d: Direction): (r: Direction)
    ensures Dx(r) == -Dx(d) && Dy(r) == -Dy(d)
  {
    match d
    case Up => Down
    case Down => Up
    case Left => Right
    case Right => Left
  }

  function Abs(n: int): nat
  {
    if n < 0 then -n else n
  }

  /** The offsets: UP (0, 1), RIGHT (1, 0), DOWN (0, -1), LEFT (-1, 0). */
  lemma OffsetTable()
    ensures (Dx(Up), Dy(Up)) == (0, 1) && (Dx(Right), Dy(Right)) == (1, 0)
    ensures (Dx(Down), Dy(Down)) == (0, -1) && (Dx(Left), Dy(Left)) == (-1, 0)
  {
  }

  /** Horizontal means LEFT or RIGHT, vertical means UP or DOWN. */
  lemma HorizontalIffSideways(d: Direction)
    ensures IsHorizontal(d) <==> (d == Left || d == Right)
    ensures IsVertical(d) <==> (d == Up || d == Down)
  {
  }

  /** Every direction is a unit step along exactly one axis. */
  lemma ExactlyOneAxis(d: Direction)
    ensures IsHorizontal(d) != IsVertical(d)
    ensures Abs(Dx(d)) + Abs(Dy(d)) == 1
  {
  }

  /** Opposite directions cancel out. */
  lemma OppositeOffsetsCancel(d: Direction)
    ensures Opposite(d) != d && Opposite(Opposite(d)) == d
    ensures Dx(d) + Dx(Opposite(d)) == 0 && Dy(d) + Dy(Opposite(d)) == 0
  {
  }

  /** Distinct directions have distinct offsets, so the offsets identify the direction. */
  lemma OffsetsIdentifyDirection(d: Direction, e: Direction)
    ensures (Dx(d), Dy(d)) == (Dx(e), Dy(e)) <==> d == e
  {
  }

  /** The turn cycle of turnLeft: UP, LEFT, DOWN, RIGHT and back to UP. */
  function LeftOf(d: Direction): (r: Direction)
    ensures Dx(r) == -Dy(d) && Dy(r) == Dx(d)
  {
    match d
    case Up => Left
    case Left => Down
    case Down => Right
    case Right => Up
  }

  /** Four left turns restore every direction, and no fewer do. */
  lemma FourLeftTurns(d: Direction)
    ensures LeftOf(LeftOf(LeftOf(LeftOf(d)))) == d
    ensures LeftOf(d) != d && LeftOf(LeftOf(d)) != d && LeftOf(LeftOf(LeftOf(d))) != d
  {
  }
}
