/**
 * The older grid of the wall-per-side worlds (foshbot/grid/Grid.java): the same cells of four wall
 * flags, with a HashSet of entities per cell. Its south and east setters stop mirroring one row or
 * column too early, so a wall set there is seen from one of its two cells only.
 */
module LegacyGrid {
  import opened Outcomes
  import opened ImplGrid

  class Grid {
    const width: int
    const height: int
    /** The wall flags: walls[x, y, Ordinal(side)]. */
    const walls: array3<bool>
    /** The entity sets (a HashSet per cell): entities[x, y]. */
    const entities: array2<set<Thing>>

    ghost predicate Valid()
    {
      0 <= width && 0 <= height &&
      walls.Length0 == width && walls.Length1 == height && walls.Length2 == 4 &&
      entities.Length0 == width && entities.Length1 == height
    }

    predicate InRange(x: int, y: int)
    {
      0 <= x < width && 0 <= y < height
    }

    /** The invariant the setters keep: each inner wall looks the same from both of its cells. */
    predicate Symmetric()
      requires Valid()
      reads walls
    {
      (forall x, y :: 0 <= x < width && 0 <= y < height - 1 ==>
         walls[x, y, Ordinal(South)] == walls[x, y + 1, Ordinal(North)]) &&
      (forall x, y :: 0 <= x < width - 1 && 0 <= y < height ==>
         walls[x, y, Ordinal(East)] == walls[x + 1, y, Ordinal(West)])
    }

    /** A new grid: a cell for every position, without walls and without entities. */
    constructor (width: int, height: int)
      requires 0 <= width && 0 <= height
      ensures Valid() && fresh(walls) && fresh(entities)
      ensures this.width == width && this.height == height
      ensures forall x, y, s :: 0 <= x < width && 0 <= y < height && 0 <= s < 4 ==> !walls[x, y, s]
      ensures forall x, y :: 0 <= x < width && 0 <= y < height ==> entities[x, y] == {}
      ensures Symmetric()
    {
      this.width := width;
      this.height := height;
      var w := new bool[width, height, 4];
      var e := new set<Thing>[width, height];
      var x := 0;
      while x < width
        invariant 0 <= x <= width
        invariant forall i, j, s :: 0 <= i < x && 0 <= j < height && 0 <= s < 4 ==> !w[i, j, s]
        invariant forall i, j :: 0 <= i < x && 0 <= j < height ==> e[i, j] == {}
      {
        var y := 0;
        while y < height
          invariant 0 <= y <= height
          invariant forall i, j, s :: 0 <= i < x && 0 <= j < height && 0 <= s < 4 ==> !w[i, j, s]
          invariant forall i, j :: 0 <= i < x && 0 <= j < height ==> e[i, j] == {}
          invariant forall j, s :: 0 <= j < y && 0 <= s < 4 ==> !w[x, j, s]
          invariant forall j :: 0 <= j < y ==> e[x, j] == {}
        {
          w[x, y, 0], w[x, y, 1], w[x, y, 2], w[x, y, 3] := false, false, false, false;
          e[x, y] := {};
          y := y + 1;
        }
        x := x + 1;
      }
      walls := w;
      entities := e;
    }

    /** `new Grid(width, height)`: a negative size is the NegativeArraySizeException of the array allocation. */
    static method Create(width: int, height: int) returns (r: Result<Grid, GridFailure>)
      ensures r.Err? <==> width < 0 || height < 0
      ensures r.Err? ==> r.error == NegativeSize
      ensures r.Ok? ==> fresh(r.value) && r.value.Valid() && r.value.Symmetric() &&
                        r.value.width == width && r.value.height == height &&
                        forall x, y :: 0 <= x < width && 0 <= y < height ==> r.value.entities[x, y] == {}
    {
      if width < 0 || height < 0 {
        return Err(NegativeSize);
      }
      var g := new Grid(width, height);
      return Ok(g);
    }

    /** hasWall (private here), and hasNorthWall ... hasWestWall with their side fixed. */
    function HasWall(x: int, y: int, d: Direction): (r: Result<bool, GridFailure>)
      requires Valid()
      reads walls
      ensures r.Err? <==> !InRange(x, y)
      ensures r.Err? ==> Fail(r.error) == CheckCoords(x, y, width, height)
      ensures r.Ok? ==> r.value == walls[x, y, Ordinal(d)]
    {
      match CheckCoords(x, y, width, height)
      case Fail(e) => Err(e)
      case Pass => Ok(walls[x, y, Ordinal(d)])
    }

    /** getEntities: the live collection of a cell. */
    function GetEntities(x: int, y: int): (r: Result<set<Thing>, GridFailure>)
      requires Valid()
      reads entities
      ensures r.Err? <==> !InRange(x, y)
      ensures r.Err? ==> Fail(r.error) == CheckCoords(x, y, width, height)
      ensures r.Ok? ==> r.value == entities[x, y]
    {
      match CheckCoords(x, y, width, height)
      case Fail(e) => Err(e)
      case Pass => Ok(entities[x, y])
    }

    /** Only the named wall slots may differ from before. */
    twostate predicate OnlyWallsAt(slots: set<(int, int, int)>)
      reads walls
    {
      forall i, j, s ::
        0 <= i < walls.Length0 && 0 <= j < walls.Length1 && 0 <= s < walls.Length2 && (i, j, s) !in slots ==>
          walls[i, j, s] == old(walls[i, j, s])
    }

    /** setWall: one side of one cell, after the coordinate check. */
    method SetWall(x: int, y: int, d: Direction, wall: bool) returns (o: Outcome<GridFailure>)
      requires Valid()
      modifies walls
      ensures o == CheckCoords(x, y, width, height)
      ensures o.Fail? ==> unchanged(walls)
      ensures o.Pass? ==> walls[x, y, Ordinal(d)] == wall && OnlyWallsAt({(x, y, Ordinal(d))})
    {
      o := CheckCoords(x, y, width, height);
      if o.Fail? {
        return;
      }
      walls[x, y, Ordinal(d)] := wall;
    }

    /** setNorthWall: north of (x, y), mirrored as south of (x, y - 1) when that cell exists. */
    method SetNorthWall(x: int, y: int, wall: bool) returns (o: Outcome<GridFailure>)
      requires Valid()
      modifies walls
      ensures o == CheckCoords(x, y, width, height)
      ensures o.Fail? ==> unchanged(walls)
      ensures o.Pass? ==> HasWall(x, y, North) == Ok(wall) && (y > 0 ==> HasWall(x, y - 1, South) == Ok(wall))
      ensures o.Pass? ==> OnlyWallsAt({(x, y, Ordinal(North)), (x, y - 1, Ordinal(South))})
      ensures o.Pass? && y == 0 ==> OnlyWallsAt({(x, y, Ordinal(North))})
      ensures old(Symmetric()) ==> Symmetric()
    {
      o := SetWall(x, y, North, wall);
      if o.Fail? {
        return;
      }
      if y > 0 {
        var m := SetWall(x, y - 1, South, wall);
      }
    }

    /**
     * setSouthWall as written: south of (x, y), mirrored as north of (x, y + 1) only when
     * y < height - 2, so a wall south of the second-to-last row is seen from one side only.
     */
    method SetSouthWall(x: int, y: int, wall: bool) returns (o: Outcome<GridFailure>)
      requires Valid()
      modifies walls
      ensures o == CheckCoords(x, y, width, height)
      ensures o.Fail? ==> unchanged(walls)
      ensures o.Pass? ==> HasWall(x, y, South) == Ok(wall) &&
                          (y < height - 2 ==> HasWall(x, y + 1, North) == Ok(wall))
      ensures o.Pass? ==> OnlyWallsAt({(x, y, Ordinal(South)), (x, y + 1, Ordinal(North))})
      ensures o.Pass? && y >= height - 2 ==> OnlyWallsAt({(x, y, Ordinal(South))})
    {
      o := SetWall(x, y, South, wall);
      if o.Fail? {
        return;
      }
      if y < height - 2 {
        var m := SetWall(x, y + 1, North, wall);
      }
    }

    /** setSouthWall with the bound of the newer grid: mirrored whenever the cell below exists. */
    method SetSouthWallMirrored(x: int, y: int, wall: bool) returns (o: Outcome<GridFailure>)
      requires Valid()
      modifies walls
      ensures o == CheckCoords(x, y, width, height)
      ensures o.Fail? ==> unchanged(walls)
      ensures o.Pass? ==> HasWall(x, y, South) == Ok(wall) &&
                          (y < height - 1 ==> HasWall(x, y + 1, North) == Ok(wall))
      ensures o.Pass? ==> OnlyWallsAt({(x, y, Ordinal(South)), (x, y + 1, Ordinal(North))})
      ensures old(Symmetric()) ==> Symmetric()
    {
      o := SetWall(x, y, South, wall);
      if o.Fail? {
        return;
      }
      if y < height - 1 {
        var m := SetWall(x, y + 1, North, wall);
      }
    }

    /**
     * setEastWall as written: east of (x, y), mirrored as west of (x + 1, y) only when
     * x < width - 2, so a wall east of the second-to-last column is seen from one side only.
     */
    method SetEastWall(x: int, y: int, wall: bool) returns (o: Outcome<GridFailure>)
      requires Valid()
      modifies walls
      ensures o == CheckCoords(x, y, width, height)
      ensures o.Fail? ==> unchanged(walls)
      ensures o.Pass? ==> HasWall(x, y, East) == Ok(wall) &&
                          (x < width - 2 ==> HasWall(x + 1, y, West) == Ok(wall))
      ensures o.Pass? ==> OnlyWallsAt({(x, y, Ordinal(East)), (x + 1, y, Ordinal(West))})
      ensures o.Pass? && x >= width - 2 ==> OnlyWallsAt({(x, y, Ordinal(East))})
    {
      o := SetWall(x, y, East, wall);
      if o.Fail? {
        return;
      }
      if x < width - 2 {
        var m := SetWall(x + 1, y, West, wall);
      }
    }

    /** setEastWall with the bound of the newer grid: mirrored whenever the cell to the right exists. */
    method SetEastWallMirrored(x: int, y: int, wall: bool) returns (o: Outcome<GridFailure>)
      requires Valid()
      modifies walls
      ensures o == CheckCoords(x, y, width, height)
      ensures o.Fail? ==> unchanged(walls)
      ensures o.Pass? ==> HasWall(x, y, East) == Ok(wall) &&
                          (x < width - 1 ==> HasWall(x + 1, y, West) == Ok(wall))
      ensures o.Pass? ==> OnlyWallsAt({(x, y, Ordinal(East)), (x + 1, y, Ordinal(West))})
      ensures old(Symmetric()) ==> Symmetric()
    {
      o := SetWall(x, y, East, wall);
      if o.Fail? {
        return;
      }
      if x < width - 1 {
        var m := SetWall(x + 1, y, West, wall);
      }
    }

    /** setWestWall: west of (x, y), mirrored as east of (x - 1, y) when that cell exists. */
    method SetWestWall(x: int, y: int, wall: bool) returns (o: Outcome<GridFailure>)
      requires Valid()
      modifies walls
      ensures o == CheckCoords(x, y, width, height)
      ensures o.Fail? ==> unchanged(walls)
      ensures o.Pass? ==> HasWall(x, y, West) == Ok(wall) && (x > 0 ==> HasWall(x - 1, y, East) == Ok(wall))
      ensures o.Pass? ==> OnlyWallsAt({(x, y, Ordinal(West)), (x - 1, y, Ordinal(East))})
      ensures o.Pass? && x == 0 ==> OnlyWallsAt({(x, y, Ordinal(West))})
      ensures old(Symmetric()) ==> Symmetric()
    {
      o := SetWall(x, y, West, wall);
      if o.Fail? {
        return;
      }
      if x > 0 {
        var m := SetWall(x - 1, y, East, wall);
      }
    }
  }

  /**
   * A grid of one column and two rows with a wall set south of (0, 0): the wall is there, the
   * north wall of (0, 1) is not, and the grid is no longer symmetric.
   */
  method SouthWallSeenFromOneSide() returns (g: Grid, o: Outcome<GridFailure>)
    ensures g.Valid() && o.Pass?
    ensures g.HasWall(0, 0, South) == Ok(true) && g.HasWall(0, 1, North) == Ok(false)
    ensures !g.Symmetric()
  {
    g := new Grid(1, 2);
    o := g.SetSouthWall(0, 0, true);
  }

  /** A grid of two columns and one row with a wall set east of (0, 0): the west wall of (1, 0) stays open. */
  method EastWallSeenFromOneSide() returns (g: Grid, o: Outcome<GridFailure>)
    ensures g.Valid() && o.Pass?
    ensures g.HasWall(0, 0, East) == Ok(true) && g.HasWall(1, 0, West) == Ok(false)
    ensures !g.Symmetric()
  {
    g := new Grid(2, 1);
    o := g.SetEastWall(0, 0, true);
  }
}
