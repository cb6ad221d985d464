/**
 * The older wall-per-side world (foshbot/impl/AbstractWorld.java) over the older grid, whose cells
 * hold HashSets of entities. putCoins adds to the count of a coin stack of the cell; which one the
 * set's iteration finds first is not fixed, so the model lets it be any of them.
 */
module LegacyImplWorld {
  import opened Outcomes
  import opened JavaText
  import opened CoinStacks
  import opened ImplGrid
  import LegacyGrid

  /** A robot other than r is in the set. */
  predicate HasOtherRobotIn(cell: set<Thing>, r: object)
  {
    exists t :: t in cell && t.RobotThing? && t.robot != r
  }

  /** The asking robot's own entry never counts, and any other robot's entry does. */
  lemma OwnEntryIgnoredInSet(cell: set<Thing>, r: object, other: object)
    requires other != r
    ensures HasOtherRobotIn(cell + {RobotThing(r)}, r) == HasOtherRobotIn(cell, r)
    ensures HasOtherRobotIn(cell - {RobotThing(r)}, r) == HasOtherRobotIn(cell, r)
    ensures !HasOtherRobotIn({RobotThing(r)}, r)
    ensures HasOtherRobotIn(cell + {RobotThing(other)}, r)
  {
    assert RobotThing(other) in cell + {RobotThing(other)};
    if HasOtherRobotIn(cell, r) {
      var t :| t in cell && t.RobotThing? && t.robot != r;
      assert t in cell - {RobotThing(r)};
    }
  }

  class AbstractWorld {
    const grid: LegacyGrid.Grid

    ghost predicate Valid()
    {
      grid.Valid()
    }

    constructor (grid: LegacyGrid.Grid)
      requires grid.Valid()
      ensures Valid() && this.grid == grid
    {
      this.grid := grid;
    }

    /** The coin stacks of a cell; none outside the grid. */
    function StacksIn(x: int, y: int): (r: set<CoinStack>)
      requires Valid()
      reads grid.entities
      ensures !grid.InRange(x, y) ==> r == {}
      ensures grid.InRange(x, y) ==> forall s :: s in r ==> StackThing(s) in grid.entities[x, y]
      ensures grid.InRange(x, y) ==> forall t :: t in grid.entities[x, y] && t.StackThing? ==> t.stack in r
    {
      if grid.InRange(x, y) then set t | t in grid.entities[x, y] && t.StackThing? :: t.stack else {}
    }

    /**
     * putCoins: n more coins, with int arithmetic, on one coin stack of the cell; without one, on the
     * stack newCoinStack supplies, given here as `supply`. The cell sets do not change.
     */
    method PutCoins(x: int, y: int, n: JavaInt, supply: CoinStack) returns (o: Outcome<GridFailure>)
      requires Valid()
      modifies StacksIn(x, y), supply
      ensures o == CheckCoords(x, y, grid.width, grid.height)
      ensures o.Fail? ==> unchanged(StacksIn(x, y)) && unchanged(supply)
      ensures o.Pass? && old(StacksIn(x, y)) != {} ==>
                exists s :: s in StacksIn(x, y) && s.numberOfCoins == IntAdd(old(s.numberOfCoins), n) &&
                            forall t :: t in StacksIn(x, y) && t != s ==> t.numberOfCoins == old(t.numberOfCoins)
      ensures o.Pass? && old(StacksIn(x, y)) == {} ==> supply.numberOfCoins == IntAdd(old(supply.numberOfCoins), n)
    {
      var e := grid.GetEntities(x, y);
      if e.Err? {
        return Fail(e.error);
      }
      var c: CoinStack;
      if StacksIn(x, y) != {} {
        c :| c in StacksIn(x, y);
      } else {
        c := supply;
      }
      c.numberOfCoins := IntAdd(c.numberOfCoins, n);
      return Pass;
    }

    /** hasBlockInField: a block is in the cell's set. */
    function HasBlockInField(x: int, y: int): (r: Result<bool, GridFailure>)
      requires Valid()
      reads grid.entities
      ensures r.Err? <==> !grid.InRange(x, y)
      ensures r.Err? ==> Fail(r.error) == CheckCoords(x, y, grid.width, grid.height)
      ensures r.Ok? ==> (r.value <==> BlockThing in grid.entities[x, y])
    {
      match grid.GetEntities(x, y)
      case Err(e) => Err(e)
      case Ok(cell) => Ok(BlockThing in cell)
    }

    /** hasCoinInField: some coin stack is in the cell's set, whatever it holds. */
    function HasCoinInField(x: int, y: int): (r: Result<bool, GridFailure>)
      requires Valid()
      reads grid.entities
      ensures r.Err? <==> !grid.InRange(x, y)
      ensures r.Ok? ==> (r.value <==> StacksIn(x, y) != {})
    {
      match grid.GetEntities(x, y)
      case Err(e) => Err(e)
      case Ok(cell) =>
        Ok(exists t :: t in cell && t.StackThing?)
    }

    /** hasAnotherRobotInField: a robot other than the one asking is in the cell's set. */
    function HasAnotherRobotInField(x: int, y: int, robot: object): (r: Result<bool, GridFailure>)
      requires Valid()
      reads grid.entities
      ensures r.Err? <==> !grid.InRange(x, y)
      ensures r.Ok? ==> (r.value <==> HasOtherRobotIn(grid.entities[x, y], robot))
    {
      match grid.GetEntities(x, y)
      case Err(e) => Err(e)
      case Ok(cell) => Ok(HasOtherRobotIn(cell, robot))
    }

    /** reset: every cell's set is emptied; the walls stay. */
    method Reset()
      requires Valid()
      modifies grid.entities
      ensures forall x, y :: grid.InRange(x, y) ==> grid.entities[x, y] == {}
    {
      var x := 0;
      while x < grid.width
        invariant 0 <= x <= grid.width
        invariant forall i, j :: 0 <= i < x && 0 <= j < grid.height ==> grid.entities[i, j] == {}
      {
        var y := 0;
        while y < grid.height
          invariant 0 <= y <= grid.height
          invariant forall i, j :: 0 <= i < x && 0 <= j < grid.height ==> grid.entities[i, j] == {}
          invariant forall j :: 0 <= j < y ==> grid.entities[x, j] == {}
        {
          grid.entities[x, y] := {};
          y := y + 1;
        }
        x := x + 1;
      }
    }
  }

  /**
   * Unlike the newer world, an empty coin stack still counts as a coin: a 1 x 1 world whose cell holds
   * one stack of 0 coins answers hasCoinInField with true.
   */
  method EmptyStackCountsAsCoin() returns (w: AbstractWorld)
    ensures w.Valid() && w.grid.InRange(0, 0)
    ensures forall s :: s in w.StacksIn(0, 0) ==> s.numberOfCoins == 0
    ensures w.HasCoinInField(0, 0) == Ok(true)
  {
    var g := new LegacyGrid.Grid(1, 1);
    var s := new CoinStack(0, 0);
    g.entities[0, 0] := {StackThing(s)};
    w := new AbstractWorld(g);
    assert s in w.StacksIn(0, 0);
  }
}
