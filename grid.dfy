/**
 * The grid of the wall-per-side worlds (impl/Grid.java). Every cell holds four wall flags, one per
 * side, and a collection of entities. Setting a wall on one side also sets the matching side of the
 * neighbouring cell, so that the two agree; every access checks the coordinates first.
 * In these worlds NORTH is y - 1 and SOUTH is y + 1.
 */
module ImplGrid {
  import opened Outcomes
  import opened CoinStacks

  datatype Direction = North | East | South | West

  /** The slot of a side in a cell's wall array (the enum order). */
  function Ordinal(d: Direction): (i: nat)
    ensures i < 4
  {
    match d
    case North => 0
    case East => 1
    case South => 2
    case West => 3
  }

  /** What the entity collections of these worlds hold: coin stacks by reference, blocks, and robots by identity. */
  datatype Thing = StackThing(stack: CoinStack) | BlockThing | RobotThing(robot: object)

  /** The IllegalArgumentException of checkCoords, with the rejected value; and a negative array size. */
  datatype GridFailure = InvalidX(x: int) | InvalidY(y: int) | NegativeSize

  /** checkCoords: x is checked before y. */
  function CheckCoords(x: int, y: int, width: int, height: int): (o: Outcome<GridFailure>)
    ensures o.Pass? <==> 0 <= x < width && 0 <= y < height
    ensures !(0 <= x < width) ==> o == Fail(InvalidX(x))
    ensures 0 <= x < width && !(0 <= y < height) ==> o == Fail(InvalidY(y))
  {
    if x < 0 || x >= width then Fail(InvalidX(x))
    else if y < 0 || y >= height then Fail(InvalidY(y))
    else Pass
  }

  class Grid {
    const width: int
    const height: int
    /** The wall flags: walls[x, y, Ordinal(side)]. */
    const walls: array3<bool>
    /** The entity collections: entities[x, y]. */
    const entities: array2<seq<Thing>>

    ghost predicate Valid()
    {
      0 <= width && 0 <= height &&
      walls.Length0 == width && walls.Length1 == height && walls.Length2 == 4 &&
      entities.Length0 == width && entities.Length1 == height
    }

    predicate InRange(x: int, y: int)
    {
      0 <= x < width && 0 <= y < height
    }

    /** The invariant the setters keep: each inner wall looks the same from both of its cells. */
    predicate Symmetric()
      requires Valid()
      reads walls
    {
      (forall x, y :: 0 <= x < width && 0 <= y < height - 1 ==>
         walls[x, y, Ordinal(South)] == walls[x, y + 1, Ordinal(North)]) &&
      (forall x, y :: 0 <= x < width - 1 && 0 <= y < height ==>
         walls[x, y, Ordinal(East)] == walls[x + 1, y, Ordinal(West)])
    }

    /** A new grid: a cell for every position, without walls and without entities. */
    constructor (width: int, height: int)
      requires 0 <= width && 0 <= height
      ensures Valid() && fresh(walls) && fresh(entities)
      ensures this.width == width && this.height == height
      ensures forall x, y, s :: 0 <= x < width && 0 <= y < height && 0 <= s < 4 ==> !walls[x, y, s]
      ensures forall x, y :: 0 <= x < width && 0 <= y < height ==> entities[x, y] == []
      ensures Symmetric()
    {
      this.width := width;
      this.height := height;
      var w := new bool[width, height, 4];
      var e := new seq<Thing>[width, height];
      var x := 0;
      while x < width
        invariant 0 <= x <= width
        invariant forall i, j, s :: 0 <= i < x && 0 <= j < height && 0 <= s < 4 ==> !w[i, j, s]
        invariant forall i, j :: 0 <= i < x && 0 <= j < height ==> e[i, j] == []
      {
        var y := 0;
        while y < height
          invariant 0 <= y <= height
          invariant forall i, j, s :: 0 <= i < x && 0 <= j < height && 0 <= s < 4 ==> !w[i, j, s]
          invariant forall i, j :: 0 <= i < x && 0 <= j < height ==> e[i, j] == []
          invariant forall j, s :: 0 <= j < y && 0 <= s < 4 ==> !w[x, j, s]
          invariant forall j :: 0 <= j < y ==> e[x, j] == []
        {
          w[x, y, 0], w[x, y, 1], w[x, y, 2], w[x, y, 3] := false, false, false, false;
          e[x, y] := [];
          y := y + 1;
        }
        x := x + 1;
      }
      walls := w;
      entities := e;
    }

    /** `new Grid(width, height)`: a negative size is the NegativeArraySizeException of the array allocation. */
    static method Create(width: int, height: int) returns (r: Result<Grid, GridFailure>)
      ensures r.Err? <==> width < 0 || height < 0
      ensures r.Err? ==> r.error == NegativeSize
      ensures r.Ok? ==> fresh(r.value) && r.value.Valid() && r.value.Symmetric() &&
                        r.value.width == width && r.value.height == height &&
                        forall x, y :: 0 <= x < width && 0 <= y < height ==> r.value.entities[x, y] == []
    {
      if width < 0 || height < 0 {
        return Err(NegativeSize);
      }
      var g := new Grid(width, height);
      return Ok(g);
    }

    /** hasWall, and hasNorthWall ... hasWestWall with their side fixed. */
    function HasWall(x: int, y: int, d: Direction): (r: Result<bool, GridFailure>)
      requires Valid()
      reads walls
      ensures r.Err? <==> !InRange(x, y)
      ensures r.Err? ==> Fail(r.error) == CheckCoords(x, y, width, height)
      ensures r.Ok? ==> r.value == walls[x, y, Ordinal(d)]
    {
      match CheckCoords(x, y, width, height)
      case Fail(e) => Err(e)
      case Pass => Ok(walls[x, y, Ordinal(d)])
    }

    /** getEntities: the live collection of a cell. */
    function GetEntities(x: int, y: int): (r: Result<seq<Thing>, GridFailure>)
      requires Valid()
      reads entities
      ensures r.Err? <==> !InRange(x, y)
      ensures r.Err? ==> Fail(r.error) == CheckCoords(x, y, width, height)
      ensures r.Ok? ==> r.value == entities[x, y]
    {
      match CheckCoords(x, y, width, height)
      case Fail(e) => Err(e)
      case Pass => Ok(entities[x, y])
    }

    /** Only the named wall slots may differ from before. */
    twostate predicate OnlyWallsAt(slots: set<(int, int, int)>)
      reads walls
    {
      forall i, j, s ::
        0 <= i < walls.Length0 && 0 <= j < walls.Length1 && 0 <= s < walls.Length2 && (i, j, s) !in slots ==>
          walls[i, j, s] == old(walls[i, j, s])
    }

    /** setWall: one side of one cell, after the coordinate check. */
    method SetWall(x: int, y: int, d: Direction, wall: bool) returns (o: Outcome<GridFailure>)
      requires Valid()
      modifies walls
      ensures o == CheckCoords(x, y, width, height)
      ensures o.Fail? ==> unchanged(walls)
      ensures o.Pass? ==> walls[x, y, Ordinal(d)] == wall && OnlyWallsAt({(x, y, Ordinal(d))})
    {
      o := CheckCoords(x, y, width, height);
      if o.Fail? {
        return;
      }
      walls[x, y, Ordinal(d)] := wall;
    }

    /** setNorthWall: north of (x, y), mirrored as south of (x, y - 1) when that cell exists. */
    method SetNorthWall(x: int, y: int, wall: bool) returns (o: Outcome<GridFailure>)
      requires Valid()
      modifies walls
      ensures o == CheckCoords(x, y, width, height)
      ensures o.Fail? ==> unchanged(walls)
      ensures o.Pass? ==> HasWall(x, y, North) == Ok(wall) && (y > 0 ==> HasWall(x, y - 1, South) == Ok(wall))
      ensures o.Pass? ==> OnlyWallsAt({(x, y, Ordinal(North)), (x, y - 1, Ordinal(South))})
      ensures o.Pass? && y == 0 ==> OnlyWallsAt({(x, y, Ordinal(North))})
      ensures old(Symmetric()) ==> Symmetric()
    {
      o := SetWall(x, y, North, wall);
      if o.Fail? {
        return;
      }
      if y > 0 {
        var m := SetWall(x, y - 1, South, wall);
      }
    }

    /** setSouthWall: south of (x, y), mirrored as north of (x, y + 1) when that cell exists. */
    method SetSouthWall(x: int, y: int, wall: bool) returns (o: Outcome<GridFailure>)
      requires Valid()
      modifies walls
      ensures o == CheckCoords(x, y, width, height)
      ensures o.Fail? ==> unchanged(walls)
      ensures o.Pass? ==> HasWall(x, y, South) == Ok(wall) &&
                          (y < height - 1 ==> HasWall(x, y + 1, North) == Ok(wall))
      ensures o.Pass? ==> OnlyWallsAt({(x, y, Ordinal(South)), (x, y + 1, Ordinal(North))})
      ensures o.Pass? && y == height - 1 ==> OnlyWallsAt({(x, y, Ordinal(South))})
      ensures old(Symmetric()) ==> Symmetric()
    {
      o := SetWall(x, y, South, wall);
      if o.Fail? {
        return;
      }
      if y < height - 1 {
        var m := SetWall(x, y + 1, North, wall);
      }
    }

    /** setEastWall: east of (x, y), mirrored as west of (x + 1, y) when that cell exists. */
    method SetEastWall(x: int, y: int, wall: bool) returns (o: Outcome<GridFailure>)
      requires Valid()
      modifies walls
      ensures o == CheckCoords(x, y, width, height)
      ensures o.Fail? ==> unchanged(walls)
      ensures o.Pass? ==> HasWall(x, y, East) == Ok(wall) &&
                          (x < width - 1 ==> HasWall(x + 1, y, West) == Ok(wall))
      ensures o.Pass? ==> OnlyWallsAt({(x, y, Ordinal(East)), (x + 1, y, Ordinal(West))})
      ensures o.Pass? && x == width - 1 ==> OnlyWallsAt({(x, y, Ordinal(East))})
      ensures old(Symmetric()) ==> Symmetric()
    {
      o := SetWall(x, y, East, wall);
      if o.Fail? {
        return;
      }
      if x < width - 1 {
        var m := SetWall(x + 1, y, West, wall);
      }
    }

    /** setWestWall: west of (x, y), mirrored as east of (x - 1, y) when that cell exists. */
    method SetWestWall(x: int, y: int, wall: bool) returns (o: Outcome<GridFailure>)
      requires Valid()
      modifies walls
      ensures o == CheckCoords(x, y, width, height)
      ensures o.Fail? ==> unchanged(walls)
      ensures o.Pass? ==> HasWall(x, y, West) == Ok(wall) && (x > 0 ==> HasWall(x - 1, y, East) == Ok(wall))
      ensures o.Pass? ==> OnlyWallsAt({(x, y, Ordinal(West)), (x - 1, y, Ordinal(East))})
      ensures o.Pass? && x == 0 ==> OnlyWallsAt({(x, y, Ordinal(West))})
      ensures old(Symmetric()) ==> Symmetric()
    {
      o := SetWall(x, y, West, wall);
      if o.Fail? {
        return;
      }
      if x > 0 {
        var m := SetWall(x - 1, y, East, wall);
      }
    }
  }

  /** The wall between two vertically neighbouring cells reads the same from both sides in a symmetric grid. */
  lemma SymmetricWallsAgree(g: Grid, x: int, y: int)
    requires g.Valid() && g.Symmetric() && g.InRange(x, y) && g.InRange(x, y + 1)
    ensures g.HasWall(x, y, South) == g.HasWall(x, y + 1, North)
  {
  }
}
