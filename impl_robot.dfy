/**
 * The robot of the wall-per-side worlds (impl/AbstractRobot.java). It faces NORTH, EAST, SOUTH or
 * WEST, with NORTH meaning y - 1; it asks the world for walls, blocks and coins and keeps its own
 * entry in the entity collection of the cell it stands on.
 */
module ImplRobot {
  import opened Outcomes
  import opened JavaText
  import opened Lists
  import opened CoinStacks
  import opened ImplGrid
  import opened ImplWorld

  /** What a robot action throws: the grid's coordinate check, or one of the three RobotExceptions. */
  datatype RobotFailure = WorldFailure(failure: GridFailure) | Crashed | Bankrupt | Counterfeit

  /** The turn of turnLeft: NORTH to WEST, WEST to SOUTH, SOUTH to EAST, EAST to NORTH. */
  function LeftOf(d: Direction): (r: Direction)
    ensures Dx(r) == Dy(d) && Dy(r) == -Dx(d)
  {
    match d
    case North => West
    case East => North
    case South => East
    case West => South
  }

  /** getDx: EAST +1, WEST -1, 0 otherwise. */
  function Dx(d: Direction): (r: int)
    ensures -1 <= r <= 1
    ensures r != 0 <==> d == East || d == West
  {
    match d
    case East => 1
    case West => -1
    case _ => 0
  }

  /** getDy: NORTH -1, SOUTH +1, 0 otherwise. */
  function Dy(d: Direction): (r: int)
    ensures -1 <= r <= 1
    ensures r != 0 <==> d == North || d == South
  {
    match d
    case North => -1
    case South => 1
    case _ => 0
  }

  /** Four left turns restore the direction, and fewer do not. */
  lemma FourLeftTurns(d: Direction)
    ensures LeftOf(LeftOf(LeftOf(LeftOf(d)))) == d
    ensures LeftOf(d) != d && LeftOf(LeftOf(d)) != d && LeftOf(LeftOf(LeftOf(d))) != d
  {
  }

  /** Every direction is a unit step, and a left turn rotates it by a quarter against the clock (y grows southwards). */
  lemma OffsetsRotate(d: Direction)
    ensures (Dx(d) == 0) != (Dy(d) == 0) && Dx(d) * Dx(d) + Dy(d) * Dy(d) == 1
    ensures Dx(LeftOf(d)) == Dy(d) && Dy(LeftOf(d)) == -Dx(d)
  {
  }

  class Robot {
    var x: int
    var y: int
    var on: bool
    var numberOfCoins: JavaInt
    var dir: Direction
    const world: HeadlessWorld

    ghost predicate Valid()
    {
      world.Valid()
    }

    /** The robot stands once in the collection of its own cell and in no other. */
    ghost predicate Placed()
      requires Valid()
      reads this, world.grid.entities
    {
      world.grid.InRange(x, y) && AtMostOnce(world.grid.entities[x, y], RobotThing(this)) &&
      forall i, j :: world.grid.InRange(i, j) ==> (RobotThing(this) in world.grid.entities[i, j] <==> i == x && j == y)
    }

    /** A new robot is on; the constructor does not add it to a cell. */
    constructor (x: int, y: int, dir: Direction, numberOfCoins: JavaInt, world: HeadlessWorld)
      requires world.Valid()
      ensures Valid() && this.world == world && on
      ensures this.x == x && this.y == y && this.dir == dir && this.numberOfCoins == numberOfCoins
    {
      this.x := x;
      this.y := y;
      this.on := true;
      this.dir := dir;
      this.numberOfCoins := numberOfCoins;
      this.world := world;
    }

    /** turnLeft: a running robot turns; a turned-off one keeps its direction. */
    method TurnLeft()
      modifies this
      ensures dir == if old(on) then LeftOf(old(dir)) else old(dir)
      ensures x == old(x) && y == old(y) && on == old(on) && numberOfCoins == old(numberOfCoins)
    {
      if !on {
        return;
      }
      dir := LeftOf(dir);
    }

    /**
     * isFrontClear: the cell ahead lies in the grid, the own cell has no wall on the facing side and
     * the cell ahead holds no block. The wall lookup checks the robot's own coordinates.
     */
    function IsFrontClear(): (r: Result<bool, GridFailure>)
      requires Valid()
      reads this, world.grid.walls, world.grid.entities
      ensures r.Err? <==> world.grid.InRange(x + Dx(dir), y + Dy(dir)) && !world.grid.InRange(x, y)
      ensures r.Err? ==> Fail(r.error) == CheckCoords(x, y, world.grid.width, world.grid.height)
      ensures r == Ok(true) <==>
                world.grid.InRange(x + Dx(dir), y + Dy(dir)) && world.grid.HasWall(x, y, dir) == Ok(false) &&
                world.HasBlockInField(x + Dx(dir), y + Dy(dir)) == Ok(false)
    {
      var nx, ny := x + Dx(dir), y + Dy(dir);
      if !world.grid.InRange(nx, ny) then Ok(false)
      else match world.grid.HasWall(x, y, dir)
        case Err(e) => Err(e)
        case Ok(wall) => Ok(!wall && BlockThing !in world.grid.entities[nx, ny])
    }

    /**
     * setField as written: the parameters hide the fields, so the entry is removed from the collection
     * of the cell the robot goes to, not of the one it leaves, and then added there.
     */
    method SetField(nx: int, ny: int) returns (o: Outcome<RobotFailure>)
      requires Valid()
      modifies this, world.grid.entities
      ensures o.Fail? <==> !world.grid.InRange(nx, ny)
      ensures o.Fail? ==> o == Fail(WorldFailure(CheckCoords(nx, ny, world.grid.width, world.grid.height).error)) &&
                          unchanged(this) && unchanged(world.grid.entities)
      ensures o.Pass? ==>
                x == nx && y == ny &&
                world.grid.entities[nx, ny] == RemoveFirst(old(world.grid.entities[nx, ny]), RobotThing(this)) + [RobotThing(this)] &&
                forall i, j :: world.grid.InRange(i, j) && (i, j) != (nx, ny) ==>
                  world.grid.entities[i, j] == old(world.grid.entities[i, j])
      ensures on == old(on) && dir == old(dir) && numberOfCoins == old(numberOfCoins)
    {
      var e := world.grid.GetEntities(nx, ny);
      if e.Err? {
        return Fail(WorldFailure(e.error));
      }
      world.grid.entities[nx, ny] := RemoveFirst(e.value, RobotThing(this));
      x, y := nx, ny;
      world.grid.entities[x, y] := world.grid.entities[x, y] + [RobotThing(this)];
      return Pass;
    }

    /**
     * setField as intended: the entry leaves the collection of the current cell, the position
     * changes, and the entry joins the collection of the new cell. Each lookup checks its coordinates.
     */
    method SetFieldCorrected(nx: int, ny: int) returns (o: Outcome<RobotFailure>)
      requires Valid()
      modifies this, world.grid.entities
      ensures !world.grid.InRange(old(x), old(y)) ==>
                o == Fail(WorldFailure(CheckCoords(old(x), old(y), world.grid.width, world.grid.height).error)) &&
                unchanged(this) && unchanged(world.grid.entities)
      ensures world.grid.InRange(old(x), old(y)) ==> x == nx && y == ny
      ensures world.grid.InRange(old(x), old(y)) && !world.grid.InRange(nx, ny) ==>
                o == Fail(WorldFailure(CheckCoords(nx, ny, world.grid.width, world.grid.height).error))
      ensures o.Pass? <==> world.grid.InRange(old(x), old(y)) && world.grid.InRange(nx, ny)
      ensures on == old(on) && dir == old(dir) && numberOfCoins == old(numberOfCoins)
      ensures o.Pass? && old(Placed()) ==> Placed()
    {
      var e := world.grid.GetEntities(x, y);
      if e.Err? {
        return Fail(WorldFailure(e.error));
      }
      Leave();
      x, y := nx, ny;
      var f := world.grid.GetEntities(nx, ny);
      if f.Err? {
        return Fail(WorldFailure(f.error));
      }
      Join();
      return Pass;
    }

    /** remove(this) on the collection of the robot's cell. */
    method Leave()
      requires Valid() && world.grid.InRange(x, y)
      modifies world.grid.entities
      ensures world.grid.entities[x, y] == RemoveFirst(old(world.grid.entities[x, y]), RobotThing(this))
      ensures forall i, j :: world.grid.InRange(i, j) && (i, j) != (x, y) ==>
                world.grid.entities[i, j] == old(world.grid.entities[i, j])
      ensures old(Placed()) ==> forall i, j :: world.grid.InRange(i, j) ==> RobotThing(this) !in world.grid.entities[i, j]
    {
      ghost var placed := Placed();
      ghost var cell := world.grid.entities[x, y];
      world.grid.entities[x, y] := RemoveFirst(world.grid.entities[x, y], RobotThing(this));
      if placed {
        RemoveFirstOfSingle(cell, RobotThing(this));
      }
    }

    /** add(this) on the collection of the robot's new cell, which it has just left elsewhere. */
    method Join()
      requires Valid() && world.grid.InRange(x, y)
      modifies world.grid.entities
      ensures world.grid.entities[x, y] == old(world.grid.entities[x, y]) + [RobotThing(this)]
      ensures forall i, j :: world.grid.InRange(i, j) && (i, j) != (x, y) ==>
                world.grid.entities[i, j] == old(world.grid.entities[i, j])
      ensures old(forall i, j :: world.grid.InRange(i, j) ==> RobotThing(this) !in world.grid.entities[i, j]) ==> Placed()
    {
      ghost var absent := forall i, j :: world.grid.InRange(i, j) ==> RobotThing(this) !in world.grid.entities[i, j];
      ghost var cell := world.grid.entities[x, y];
      world.grid.entities[x, y] := world.grid.entities[x, y] + [RobotThing(this)];
      if absent {
        AppendedOnce(cell, RobotThing(this));
      }
    }

    /**
     * move: a turned-off robot stays; a robot whose front is not clear throws "Robot crashed!"
     * without moving and stays on; otherwise it goes one cell in its direction through the
     * setField as written, so the cell it leaves keeps its entry.
     */
    method Move() returns (o: Outcome<RobotFailure>)
      requires Valid()
      modifies this, world.grid.entities
      ensures on == old(on) && dir == old(dir) && numberOfCoins == old(numberOfCoins)
      ensures !old(on) ==> o.Pass? && unchanged(this) && unchanged(world.grid.entities)
      ensures old(on) && old(IsFrontClear()).Err? ==>
                o == Fail(WorldFailure(old(IsFrontClear()).error)) && unchanged(this) && unchanged(world.grid.entities)
      ensures old(on) && old(IsFrontClear()) == Ok(false) ==>
                o == Fail(Crashed) && unchanged(this) && unchanged(world.grid.entities)
      ensures old(on) && old(IsFrontClear()) == Ok(true) ==>
                var nx, ny := old(x) + Dx(dir), old(y) + Dy(dir);
                o.Pass? && x == nx && y == ny && world.grid.InRange(nx, ny) &&
                world.grid.entities[nx, ny] == RemoveFirst(old(world.grid.entities[nx, ny]), RobotThing(this)) + [RobotThing(this)] &&
                forall i, j :: world.grid.InRange(i, j) && (i, j) != (nx, ny) ==>
                  world.grid.entities[i, j] == old(world.grid.entities[i, j])
    {
      if !on {
        return Pass;
      }
      var clear := IsFrontClear();
      if clear.Err? {
        return Fail(WorldFailure(clear.error));
      }
      if !clear.value {
        return Fail(Crashed);
      }
      o := SetField(x + Dx(dir), y + Dy(dir));
    }

    /** move through the corrected setField: the robot then stays listed in exactly one cell. */
    method MoveCorrected() returns (o: Outcome<RobotFailure>)
      requires Valid()
      modifies this, world.grid.entities
      ensures on == old(on) && dir == old(dir) && numberOfCoins == old(numberOfCoins)
      ensures !old(on) ==> o.Pass? && unchanged(this) && unchanged(world.grid.entities)
      ensures old(on) && old(IsFrontClear()).Err? ==>
                o == Fail(WorldFailure(old(IsFrontClear()).error)) && unchanged(this) && unchanged(world.grid.entities)
      ensures old(on) && old(IsFrontClear()) == Ok(false) ==>
                o == Fail(Crashed) && unchanged(this) && unchanged(world.grid.entities)
      ensures old(on) && old(IsFrontClear()) == Ok(true) ==>
                o.Pass? && x == old(x) + Dx(dir) && y == old(y) + Dy(dir) && world.grid.InRange(x, y) &&
                (old(Placed()) ==> Placed())
    {
      if !on {
        return Pass;
      }
      var clear := IsFrontClear();
      if clear.Err? {
        return Fail(WorldFailure(clear.error));
      }
      if !clear.value {
        return Fail(Crashed);
      }
      o := SetFieldCorrected(x + Dx(dir), y + Dy(dir));
    }

    /**
     * putCoin: a running robot with coins gives one up and the world puts one coin on its cell; one
     * without coins throws "Robot went bankrupt!". The coin is given up before the world checks the cell.
     */
    method PutCoin() returns (o: Outcome<RobotFailure>)
      requires Valid()
      modifies this, world.StackObjects(x, y)
      ensures x == old(x) && y == old(y) && on == old(on) && dir == old(dir)
      ensures world.StackAt(x, y) == old(world.StackAt(x, y))
      ensures !old(on) ==> o.Pass? && numberOfCoins == old(numberOfCoins) &&
                           world.StackCount(x, y) == old(world.StackCount(x, y))
      ensures old(on) && old(numberOfCoins) <= 0 ==>
                o == Fail(Bankrupt) && numberOfCoins == old(numberOfCoins) &&
                world.StackCount(x, y) == old(world.StackCount(x, y))
      ensures old(on) && old(numberOfCoins) > 0 ==>
                numberOfCoins == old(numberOfCoins) - 1 &&
                (o.Pass? <==> world.grid.InRange(x, y)) &&
                (o.Fail? ==> o == Fail(WorldFailure(CheckCoords(x, y, world.grid.width, world.grid.height).error))) &&
                (o.Pass? && world.StackAt(x, y).Some? ==>
                   world.StackCount(x, y) == Some(IntAdd(old(world.StackCount(x, y)).value, 1)))
    {
      if !on {
        return Pass;
      }
      if numberOfCoins > 0 {
        numberOfCoins := numberOfCoins - 1;
        var p := world.PutCoins(x, y, 1);
        if p.Fail? {
          return Fail(WorldFailure(p.error));
        }
        return Pass;
      }
      return Fail(Bankrupt);
    }

    /**
     * pickCoin: a running robot gains a coin when the world lets it take one from its cell, and
     * otherwise throws "Robot tried to counterfeit money!".
     */
    method PickCoin() returns (o: Outcome<RobotFailure>)
      requires Valid()
      modifies this, world.StackObjects(x, y)
      ensures x == old(x) && y == old(y) && on == old(on) && dir == old(dir)
      ensures world.StackAt(x, y) == old(world.StackAt(x, y))
      ensures !old(on) ==> o.Pass? && numberOfCoins == old(numberOfCoins) &&
                           world.StackCount(x, y) == old(world.StackCount(x, y))
      ensures old(on) && !world.grid.InRange(x, y) ==>
                o == Fail(WorldFailure(CheckCoords(x, y, world.grid.width, world.grid.height).error))
      ensures old(on) && world.grid.InRange(x, y) ==>
                (o.Pass? <==> old(world.StackCount(x, y)).Some? && old(world.StackCount(x, y)).value != 0) &&
                (o.Fail? ==> o == Fail(Counterfeit))
      ensures o.Pass? && old(on) ==>
                numberOfCoins == IntAdd(old(numberOfCoins), 1) &&
                world.StackCount(x, y) == Some(IntSub(old(world.StackCount(x, y)).value, 1))
      ensures o.Fail? ==> numberOfCoins == old(numberOfCoins) && world.StackCount(x, y) == old(world.StackCount(x, y))
    {
      if !on {
        return Pass;
      }
      var picked := world.PickCoin(x, y);
      if picked.Err? {
        return Fail(WorldFailure(picked.error));
      }
      if !picked.value {
        return Fail(Counterfeit);
      }
      numberOfCoins := IntAdd(numberOfCoins, 1);
      return Pass;
    }

    /** turnOff: the robot is off from now on. */
    method TurnOff()
      modifies this
      ensures !on && IsTurnedOff()
      ensures x == old(x) && y == old(y) && dir == old(dir) && numberOfCoins == old(numberOfCoins)
    {
      on := false;
    }

    /** isTurnedOff. */
    predicate IsTurnedOff()
      reads this
    {
      !on
    }

    /** isNextToACoin: the world's hasCoinInField for the robot's cell. */
    function IsNextToACoin(): (r: Result<bool, GridFailure>)
      requires Valid()
      reads this, world.grid.entities, world.StackObjects(x, y)
      ensures r.Err? <==> !world.grid.InRange(x, y)
      ensures r.Ok? ==> (r.value <==> world.StackCount(x, y).Some? && world.StackCount(x, y).value > 0)
    {
      world.HasCoinInField(x, y)
    }

    /** isNextToARobot: another robot than this one stands in the robot's cell. */
    function IsNextToARobot(): (r: Result<bool, GridFailure>)
      requires Valid()
      reads this, world.grid.entities
      ensures r.Err? <==> !world.grid.InRange(x, y)
      ensures r.Ok? ==> (r.value <==> HasOtherRobot(world.grid.entities[x, y], this))
    {
      world.HasAnotherRobotInField(x, y, this)
    }
  }

  /**
   * The source's setField leaves the robot in the collection of the cell it came from: a robot
   * standing alone at (0, 0) of a 2 x 1 grid that goes to (1, 0) is then listed in both cells.
   */
  method SetFieldLeavesOldEntry() returns (r: Robot)
    ensures r.Valid() && r.world.grid.InRange(0, 0) && r.world.grid.InRange(1, 0)
    ensures r.x == 1 && r.y == 0
    ensures RobotThing(r) in r.world.grid.entities[0, 0] && RobotThing(r) in r.world.grid.entities[1, 0]
    ensures !r.Placed()
  {
    var g := new Grid(2, 1);
    var w := new HeadlessWorld(g);
    r := new Robot(0, 0, East, 0, w);
    g.entities[0, 0] := [RobotThing(r)];
    var o := r.SetField(1, 0);
    assert o.Pass?;
    assert r.world.grid.entities[0, 0] == [RobotThing(r)];
  }

  /**
   * move inherits this: the robot alone at (0, 0) of a 2 x 1 grid without walls, facing EAST, moves
   * to (1, 0) and is then listed in both cells.
   */
  method MoveLeavesOldEntry() returns (r: Robot)
    ensures r.Valid() && r.world.grid.InRange(0, 0) && r.world.grid.InRange(1, 0)
    ensures r.x == 1 && r.y == 0
    ensures RobotThing(r) in r.world.grid.entities[0, 0] && RobotThing(r) in r.world.grid.entities[1, 0]
    ensures !r.Placed()
  {
    var g := new Grid(2, 1);
    var w := new HeadlessWorld(g);
    r := new Robot(0, 0, East, 0, w);
    g.entities[0, 0] := [RobotThing(r)];
    assert !g.walls[0, 0, Ordinal(East)];
    var o := r.Move();
    assert r.world.grid.entities[0, 0] == [RobotThing(r)];
  }

  /** The corrected move of the same robot leaves it listed in its new cell only. */
  method MoveCorrectedKeepsOneEntry() returns (r: Robot)
    ensures r.Valid() && r.world.grid.InRange(1, 0) && r.x == 1 && r.y == 0 && r.Placed()
    ensures RobotThing(r) !in r.world.grid.entities[0, 0] && RobotThing(r) in r.world.grid.entities[1, 0]
  {
    var g := new Grid(2, 1);
    var w := new HeadlessWorld(g);
    r := new Robot(0, 0, East, 0, w);
    g.entities[0, 0] := [RobotThing(r)];
    assert [RobotThing(r)][1..] == [];
    assert r.Placed();
    assert !g.walls[0, 0, Ordinal(East)];
    var o := r.MoveCorrected();
  }

  /** With the corrected setField, the same move leaves the robot listed only in its new cell. */
  method SetFieldCorrectedKeepsOneEntry() returns (r: Robot)
    ensures r.Valid() && r.x == 1 && r.y == 0 && r.Placed()
    ensures RobotThing(r) !in r.world.grid.entities[0, 0] && RobotThing(r) in r.world.grid.entities[1, 0]
  {
    var g := new Grid(2, 1);
    var w := new HeadlessWorld(g);
    r := new Robot(0, 0, East, 0, w);
    g.entities[0, 0] := [RobotThing(r)];
    assert [RobotThing(r)][1..] == [];
    assert r.Placed();
    var o := r.SetFieldCorrected(1, 0);
  }
}
