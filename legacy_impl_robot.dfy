/**
 * The older robot of the wall-per-side worlds (foshbot/impl/AbstractRobot.java). It turns and moves
 * like the newer one, but turnLeft has no on-check, move shifts the robot's entry between the cell
 * sets itself, and putCoin, pickCoin and setField are empty.
 */
module LegacyImplRobot {
  import opened Outcomes
  import opened JavaText
  import opened ImplGrid
  import opened ImplRobot
  import opened LegacyImplWorld

  class Robot {
    var x: int
    var y: int
    var on: bool
    var numberOfCoins: JavaInt
    var dir: Direction
    const world: AbstractWorld

    ghost predicate Valid()
    {
      world.Valid()
    }

    /** The robot's entry is in the set of its own cell and of no other. */
    ghost predicate Placed()
      requires Valid()
      reads this, world.grid.entities
    {
      world.grid.InRange(x, y) &&
      forall i, j :: world.grid.InRange(i, j) ==> (RobotThing(this) in world.grid.entities[i, j] <==> i == x && j == y)
    }

    /** A new robot is on; the constructor does not add it to a cell. */
    constructor (x: int, y: int, dir: Direction, numberOfCoins: JavaInt, world: AbstractWorld)
      requires world.Valid()
      ensures Valid() && this.world == world && on
      ensures this.x == x && this.y == y && this.dir == dir && this.numberOfCoins == numberOfCoins
    {
      this.x := x;
      this.y := y;
      this.on := true;
      this.dir := dir;
      this.numberOfCoins := numberOfCoins;
      this.world := world;
    }

    /** turnLeft: turns whether or not the robot is on. */
    method TurnLeft()
      modifies this
      ensures dir == LeftOf(old(dir))
      ensures x == old(x) && y == old(y) && on == old(on) && numberOfCoins == old(numberOfCoins)
    {
      dir := LeftOf(dir);
    }

    /** isFrontClear: the same three conditions as in the newer robot, over the cell sets. */
    function IsFrontClear(): (r: Result<bool, GridFailure>)
      requires Valid()
      reads this, world.grid.walls, world.grid.entities
      ensures r.Err? <==> world.grid.InRange(x + Dx(dir), y + Dy(dir)) && !world.grid.InRange(x, y)
      ensures r.Err? ==> Fail(r.error) == CheckCoords(x, y, world.grid.width, world.grid.height)
      ensures r == Ok(true) <==>
                world.grid.InRange(x + Dx(dir), y + Dy(dir)) && world.grid.HasWall(x, y, dir) == Ok(false) &&
                world.HasBlockInField(x + Dx(dir), y + Dy(dir)) == Ok(false)
    {
      var nx, ny := x + Dx(dir), y + Dy(dir);
      if !world.grid.InRange(nx, ny) then Ok(false)
      else match world.grid.HasWall(x, y, dir)
        case Err(e) => Err(e)
        case Ok(wall) => Ok(!wall && BlockThing !in world.grid.entities[nx, ny])
    }

    /**
     * move: a turned-off robot stays; a robot whose front is not clear throws "Robot crashed!";
     * otherwise its entry leaves the old cell's set, the position shifts by one step and the entry
     * joins the new cell's set.
     */
    method Move() returns (o: Outcome<RobotFailure>)
      requires Valid()
      modifies this, world.grid.entities
      ensures on == old(on) && dir == old(dir) && numberOfCoins == old(numberOfCoins)
      ensures !old(on) ==> o.Pass? && unchanged(this) && unchanged(world.grid.entities)
      ensures old(on) && old(IsFrontClear()).Err? ==>
                o == Fail(WorldFailure(old(IsFrontClear()).error)) && unchanged(this) && unchanged(world.grid.entities)
      ensures old(on) && old(IsFrontClear()) == Ok(false) ==>
                o == Fail(Crashed) && unchanged(this) && unchanged(world.grid.entities)
      ensures old(on) && old(IsFrontClear()) == Ok(true) ==>
                o.Pass? && x == old(x) + Dx(dir) && y == old(y) + Dy(dir) &&
                world.grid.entities[old(x), old(y)] == old(world.grid.entities[x, y]) - {RobotThing(this)} &&
                world.grid.entities[x, y] == old(world.grid.entities[x + Dx(dir), y + Dy(dir)]) + {RobotThing(this)} &&
                (forall i, j :: world.grid.InRange(i, j) && (i, j) != (old(x), old(y)) && (i, j) != (x, y) ==>
                   world.grid.entities[i, j] == old(world.grid.entities[i, j])) &&
                (old(Placed()) ==> Placed())
    {
      if !on {
        return Pass;
      }
      var clear := IsFrontClear();
      if clear.Err? {
        return Fail(WorldFailure(clear.error));
      }
      if !clear.value {
        return Fail(Crashed);
      }
      world.grid.entities[x, y] := world.grid.entities[x, y] - {RobotThing(this)};
      x, y := x + Dx(dir), y + Dy(dir);
      OffsetsRotate(dir);
      world.grid.entities[x, y] := world.grid.entities[x, y] + {RobotThing(this)};
      return Pass;
    }

    /** putCoin is empty. */
    method PutCoin()
      ensures unchanged(this)
    {
    }

    /** pickCoin is empty. */
    method PickCoin()
      ensures unchanged(this)
    {
    }

    /** setField is empty: the robot keeps its position. */
    method SetField(nx: int, ny: int)
      ensures unchanged(this)
    {
    }

    /** turnOff: isTurnedOff holds from now on. */
    method TurnOff()
      modifies this
      ensures IsTurnedOff()
      ensures x == old(x) && y == old(y) && dir == old(dir) && numberOfCoins == old(numberOfCoins)
    {
      on := false;
    }

    predicate IsTurnedOff()
      reads this
    {
      !on
    }

    /** isNextToACoin answers false, whatever the cell holds. */
    function IsNextToACoin(): (r: bool)
      ensures !r
    {
      false
    }

    /** isNextToARobot answers false, whatever the cell holds. */
    function IsNextToARobot(): (r: bool)
      ensures !r
    {
      false
    }
  }
}
