/**
 * The newer wall-per-side world (impl/AbstractWorld.java) in its headless form
 * (headless/HeadlessWorld.java). Coins live in CoinStack entities that putCoins and pickCoin change
 * in place; the headless world's newCoinStack hands out a stack without adding it to the cell.
 */
module ImplWorld {
  import opened Outcomes
  import opened JavaText
  import opened CoinStacks
  import opened ImplGrid

  /** The position of the first coin stack of a cell (the findFirst of getCoinStack). */
  function FirstStackIndex(cell: seq<Thing>): (r: Option<nat>)
    ensures r.None? <==> forall i :: 0 <= i < |cell| ==> !cell[i].StackThing?
    ensures r.Some? ==> r.value < |cell| && cell[r.value].StackThing? &&
                        forall j :: 0 <= j < r.value ==> !cell[j].StackThing?
  {
    if cell == [] then None
    else if cell[0].StackThing? then Some(0)
    else match FirstStackIndex(cell[1..])
      case None => None
      case Some(k) => Some(k + 1)
  }

  /** A robot other than r stands in the cell. */
  predicate HasOtherRobot(cell: seq<Thing>, r: object)
  {
    exists i :: 0 <= i < |cell| && cell[i].RobotThing? && cell[i].robot != r
  }

  /** The robot's own entries never count: adding or removing them does not change the answer. */
  lemma {:induction false} OwnEntryIgnored(cell: seq<Thing>, r: object)
    ensures HasOtherRobot(cell + [RobotThing(r)], r) == HasOtherRobot(cell, r)
    ensures HasOtherRobot([RobotThing(r)] + cell, r) == HasOtherRobot(cell, r)
  {
    var after, before := cell + [RobotThing(r)], [RobotThing(r)] + cell;
    if HasOtherRobot(after, r) {
      var i :| 0 <= i < |after| && after[i].RobotThing? && after[i].robot != r;
      assert cell[i].RobotThing? && cell[i].robot != r;
    }
    if HasOtherRobot(before, r) {
      var i :| 0 <= i < |before| && before[i].RobotThing? && before[i].robot != r;
      assert cell[i - 1].RobotThing? && cell[i - 1].robot != r;
    }
    if HasOtherRobot(cell, r) {
      var i :| 0 <= i < |cell| && cell[i].RobotThing? && cell[i].robot != r;
      assert after[i] == cell[i] && before[i + 1] == cell[i];
    }
  }

  class HeadlessWorld {
    const grid: Grid

    ghost predicate Valid()
    {
      grid.Valid()
    }

    constructor (grid: Grid)
      requires grid.Valid()
      ensures Valid() && this.grid == grid
    {
      this.grid := grid;
    }

    /** The coin stack getCoinStack finds at a position of the grid, if any. */
    function StackAt(x: int, y: int): (r: Option<CoinStack>)
      requires Valid()
      reads grid.entities
      ensures r.None? <==> !grid.InRange(x, y) || forall i :: 0 <= i < |grid.entities[x, y]| ==> !grid.entities[x, y][i].StackThing?
      ensures r.Some? ==> grid.InRange(x, y) && StackThing(r.value) in grid.entities[x, y]
    {
      if !grid.InRange(x, y) then None
      else match FirstStackIndex(grid.entities[x, y])
        case None => None
        case Some(i) => Some(grid.entities[x, y][i].stack)
    }

    /** The objects putCoins and pickCoin may change: the stack found at the position. */
    function StackObjects(x: int, y: int): set<object>
      requires Valid()
      reads grid.entities
    {
      match StackAt(x, y)
      case None => {}
      case Some(s) => {s}
    }

    /** The count of the stack found at the position. */
    function StackCount(x: int, y: int): Option<JavaInt>
      requires Valid()
      reads grid.entities, StackObjects(x, y)
    {
      match StackAt(x, y)
      case None => None
      case Some(s) => Some(s.numberOfCoins)
    }

    /** newCoinStack of the headless world: a fresh stack, not added to the cell. */
    method NewCoinStack(x: int, y: int) returns (c: CoinStack)
      ensures fresh(c) && c.x == x && c.y == y && c.numberOfCoins == 0
    {
      c := new CoinStack(x, y);
    }

    /**
     * putCoins: n more coins on the cell's first stack. Without one, the new stack receives them
     * and is dropped, so the world does not change. An invalid position throws before anything happens.
     */
    method PutCoins(x: int, y: int, n: JavaInt) returns (o: Outcome<GridFailure>)
      requires Valid()
      modifies StackObjects(x, y)
      ensures o == CheckCoords(x, y, grid.width, grid.height)
      ensures StackAt(x, y) == old(StackAt(x, y))
      ensures o.Pass? && StackAt(x, y).Some? ==> StackCount(x, y) == Some(IntAdd(old(StackCount(x, y)).value, n))
      ensures StackAt(x, y).None? ==> HasCoinInField(x, y) == old(HasCoinInField(x, y))
    {
      var e := grid.GetEntities(x, y);
      if e.Err? {
        return Fail(e.error);
      }
      var i := FirstStackIndex(e.value);
      var c: CoinStack;
      if i.Some? {
        c := e.value[i.value].stack;
      } else {
        c := NewCoinStack(x, y);
      }
      c.PutCoins(n);
      return Pass;
    }

    /** pickCoin: takes one coin from the first stack unless there is none or it holds exactly 0. */
    method PickCoin(x: int, y: int) returns (r: Result<bool, GridFailure>)
      requires Valid()
      modifies StackObjects(x, y)
      ensures r.Err? <==> !grid.InRange(x, y)
      ensures r.Err? ==> Fail(r.error) == CheckCoords(x, y, grid.width, grid.height)
      ensures StackAt(x, y) == old(StackAt(x, y))
      ensures r.Ok? ==> (r.value <==> old(StackCount(x, y)).Some? && old(StackCount(x, y)).value != 0)
      ensures r == Ok(true) ==> StackCount(x, y) == Some(IntSub(old(StackCount(x, y)).value, 1))
      ensures r != Ok(true) ==> StackCount(x, y) == old(StackCount(x, y))
    {
      var e := grid.GetEntities(x, y);
      if e.Err? {
        return Err(e.error);
      }
      var i := FirstStackIndex(e.value);
      if i.None? {
        return Ok(false);
      }
      var c := e.value[i.value].stack;
      if c.numberOfCoins == 0 {
        return Ok(false);
      }
      c.PickCoins(1);
      return Ok(true);
    }

    /** hasCoinInField: the first stack exists and holds more than 0 coins. */
    function HasCoinInField(x: int, y: int): (r: Result<bool, GridFailure>)
      requires Valid()
      reads grid.entities, StackObjects(x, y)
      ensures r.Err? <==> !grid.InRange(x, y)
      ensures r.Ok? ==> (r.value <==> StackCount(x, y).Some? && StackCount(x, y).value > 0)
    {
      match grid.GetEntities(x, y)
      case Err(e) => Err(e)
      case Ok(cell) =>
        match FirstStackIndex(cell)
        case None => Ok(false)
        case Some(i) => Ok(cell[i].stack.numberOfCoins > 0)
    }

    /** hasBlockInField: some entity of the cell is a block. */
    function HasBlockInField(x: int, y: int): (r: Result<bool, GridFailure>)
      requires Valid()
      reads grid.entities
      ensures r.Err? <==> !grid.InRange(x, y)
      ensures r.Ok? ==> (r.value <==> BlockThing in grid.entities[x, y])
    {
      match grid.GetEntities(x, y)
      case Err(e) => Err(e)
      case Ok(cell) => Ok(BlockThing in cell)
    }

    /** fieldHasWallInDirection: the wall flag of the cell's side d, through the grid's checked hasWall. */
    function FieldHasWallInDirection(x: int, y: int, d: Direction): (r: Result<bool, GridFailure>)
      requires Valid()
      reads grid.walls
      ensures r.Err? <==> !grid.InRange(x, y)
      ensures r.Err? ==> Fail(r.error) == CheckCoords(x, y, grid.width, grid.height)
      ensures r.Ok? ==> r.value == grid.walls[x, y, Ordinal(d)]
    {
      grid.HasWall(x, y, d)
    }

    /** hasAnotherRobotInField: a robot other than the one asking stands in the cell. */
    function HasAnotherRobotInField(x: int, y: int, robot: object): (r: Result<bool, GridFailure>)
      requires Valid()
      reads grid.entities
      ensures r.Err? <==> !grid.InRange(x, y)
      ensures r.Ok? ==> (r.value <==> HasOtherRobot(grid.entities[x, y], robot))
    {
      match grid.GetEntities(x, y)
      case Err(e) => Err(e)
      case Ok(cell) => Ok(HasOtherRobot(cell, robot))
    }

    /** putBlock of the headless world: one more block in the cell, even when it holds some already. */
    method PutBlock(x: int, y: int) returns (o: Outcome<GridFailure>)
      requires Valid()
      modifies grid.entities
      ensures o == CheckCoords(x, y, grid.width, grid.height)
      ensures o.Fail? ==> unchanged(grid.entities)
      ensures o.Pass? ==> grid.entities[x, y] == old(grid.entities[x, y]) + [BlockThing] &&
                          HasBlockInField(x, y) == Ok(true)
      ensures forall i, j :: grid.InRange(i, j) && (i, j) != (x, y) ==> grid.entities[i, j] == old(grid.entities[i, j])
    {
      var e := grid.GetEntities(x, y);
      if e.Err? {
        return Fail(e.error);
      }
      grid.entities[x, y] := e.value + [BlockThing];
      return Pass;
    }

    /** reset: every cell's collection is emptied; the walls stay. */
    method Reset()
      requires Valid()
      modifies grid.entities
      ensures forall x, y :: grid.InRange(x, y) ==> grid.entities[x, y] == []
    {
      var x := 0;
      while x < grid.width
        invariant 0 <= x <= grid.width
        invariant forall i, j :: 0 <= i < x && 0 <= j < grid.height ==> grid.entities[i, j] == []
      {
        var y := 0;
        while y < grid.height
          invariant 0 <= y <= grid.height
          invariant forall i, j :: 0 <= i < x && 0 <= j < grid.height ==> grid.entities[i, j] == []
          invariant forall j :: 0 <= j < y ==> grid.entities[x, j] == []
        {
          grid.entities[x, y] := [];
          y := y + 1;
        }
        x := x + 1;
      }
    }

    /** isRunning of the headless world: always. */
    function IsRunning(): (r: bool)
      ensures r
    {
      true
    }

    /** start and stop of the headless world do nothing; the world keeps running. */
    method Start()
      ensures IsRunning()
    {
    }

    method Stop()
      ensures IsRunning()
    {
    }
  }

  /**
   * pickCoin succeeds on a stack that does not hold exactly 0 coins, while hasCoinInField wants more
   * than 0: for counts of 0 and above the two agree, and a negative count is picked but not reported.
   */
  lemma PickAgreesWithHasCoin(w: HeadlessWorld, x: int, y: int)
    requires w.Valid() && w.grid.InRange(x, y)
    ensures w.StackCount(x, y).None? ==> w.HasCoinInField(x, y) == Ok(false)
    ensures w.StackCount(x, y).Some? && w.StackCount(x, y).value >= 0 ==>
              w.HasCoinInField(x, y) == Ok(w.StackCount(x, y).value != 0)
    ensures w.StackCount(x, y).Some? && w.StackCount(x, y).value < 0 ==> w.HasCoinInField(x, y) == Ok(false)
  {
  }
}
