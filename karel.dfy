/**
 * The classic FOPBot world of src/main/java/fopbot: a KarelWorld of fields holding
 * entity lists, the Robot that moves over it, the RobotTrace each robot's actions are
 * logged in, and the static World holding the global world.
 *
 * The world is stored row-major as `fields[y, x]`; UP increases y. Exceptions are
 * returned as a `Fail` outcome. Transition's static step counter and the static
 * global World are passed to the operations that use them as explicit objects.
 */
module Karel {
  import opened Outcomes
  import opened Directions
  import opened Transitions
  import opened JavaText
  import opened FieldEntities

  /** The exceptions the classic world throws. */
  datatype Failure =
    | InvalidWorldSize     // RuntimeException "Invalid world size"
    | InvalidX             // IllegalArgumentException "Invalid x-coordinate"
    | InvalidY             // IllegalArgumentException "Invalid y-coordinate"
    | NegativeCoinCount    // "Number of coins must be greater than -1!"
    | CoinCountBelowOne    // "Number of coins must be greater than 0!"
    | RobotCrashed         // RuntimeException "Robot crashed!"
    | TooManyTraces        // IllegalStateException of the action limit
    | NullGlobalWorld      // NullPointerException on a missing global world
    | NoGlobalWorld        // "No global world initialized! Cannot create robot!"
    | IndexOutOfBounds     // ArrayIndexOutOfBoundsException

  /** The robot traces of one robot: its transitions in insertion order. */
  class RobotTrace {
    var transitions: seq<Transition>

    constructor ()
      ensures transitions == []
    {
      transitions := [];
    }

    /** The copy constructor: the same transitions in an independent list. */
    constructor Copy(other: RobotTrace)
      ensures transitions == other.transitions
    {
      transitions := other.transitions;
    }

    method SetTransitions(ts: seq<Transition>)
      modifies this
      ensures transitions == ts
    {
      transitions := ts;
    }

    /**
     * trace: appends one transition holding a copy of the robot, then runs the global
     * world's action-limit check, so the transition stays even when that check throws.
     */
    method Trace(r: Robot, action: RobotAction, counter: StepCounter, g: GlobalWorld) returns (o: Outcome<Failure>)
      requires counter.Valid() && g.TracesReady()
      modifies this, counter
      ensures counter.Valid()
      ensures transitions == old(transitions) + [Transition(old(counter.nextStep), action, r.Copy())]
      ensures counter.nextStep == IntSucc(old(counter.nextStep))
      ensures o == g.LimitOutcome()
    {
      var t := counter.NewTransition(action, r.Copy());
      transitions := transitions + [t];
      o := g.CheckActionLimit();
    }
  }

  /** A trace object not yet in use, stored under the next id, keeps the traces keyed by the ids below the new count, one object each. */
  lemma TracesGrow(traces: map<string, RobotTrace>, n: nat, t: RobotTrace)
    requires traces.Keys == IdsBelow(n) && (forall i :: 0 <= i < n ==> NatToString(i) in traces)
    requires forall a, b :: a in traces && b in traces && a != b ==> traces[a] != traces[b]
    requires t !in traces.Values
    ensures var grown := traces[NatToString(n) := t];
            grown.Keys == IdsBelow(n + 1) && (forall i :: 0 <= i < n + 1 ==> NatToString(i) in grown) &&
            forall a, b :: a in grown && b in grown && a != b ==> grown[a] != grown[b]
  {
    var grown := traces[NatToString(n) := t];
    NextIdIsNew(n);
    forall i | 0 <= i < n + 1
      ensures NatToString(i) in grown
    {
      if i < n {
        IdsBelowHolds(n, i);
      }
    }
    forall a, b | a in grown && b in grown && a != b
      ensures grown[a] != grown[b]
    {
      if a != NatToString(n) && b != NatToString(n) {
        assert grown[a] == traces[a] && grown[b] == traces[b];
      } else if a == NatToString(n) {
        assert grown[b] == traces[b] && traces[b] in traces.Values;
      } else {
        assert grown[a] == traces[a] && traces[a] in traces.Values;
      }
    }
  }

  class KarelWorld {
    const width: int
    const height: int
    /** The fields, row-major: fields[y, x]. */
    const fields: array2<seq<Entity>>
    var robotCount: nat
    var actionLimit: int
    var traces: map<string, RobotTrace>
    var delay: int

    ghost predicate FieldsValid()
      reads this, fields
    {
      1 <= width && 1 <= height && fields.Length0 == height && fields.Length1 == width &&
      forall y, x :: 0 <= y < height && 0 <= x < width ==> FieldValid(fields[y, x])
    }

    /** The traces are keyed by the ids "0", "1", ... of the robots added so far, each with its own trace. */
    ghost predicate TracesValid()
      reads this
    {
      traces.Keys == IdsBelow(robotCount) &&
      (forall i :: 0 <= i < robotCount ==> NatToString(i) in traces) &&
      forall a, b :: a in traces && b in traces && a != b ==> traces[a] != traces[b]
    }

    ghost predicate Valid()
      reads this, fields
    {
      FieldsValid() && TracesValid()
    }

    predicate InBounds(x: int, y: int)
      reads this
    {
      0 <= x < width && 0 <= y < height
    }

    constructor (width: int, height: int)
      requires 1 <= width && 1 <= height
      ensures Valid() && fresh(fields)
      ensures this.width == width && this.height == height
      ensures forall y, x :: 0 <= y < height && 0 <= x < width ==> fields[y, x] == []
      ensures robotCount == 0 && traces == map[] && actionLimit == -1 && delay == 100
    {
      this.width := width;
      this.height := height;
      var a := new seq<Entity>[height, width];
      var y := 0;
      while y < height
        invariant 0 <= y <= height
        invariant forall j, i :: 0 <= j < y && 0 <= i < width ==> a[j, i] == []
      {
        var x := 0;
        while x < width
          invariant 0 <= x <= width
          invariant forall j, i :: 0 <= j < y && 0 <= i < width ==> a[j, i] == []
          invariant forall i :: 0 <= i < x ==> a[y, i] == []
        {
          a[y, x] := [];
          x := x + 1;
        }
        y := y + 1;
      }
      fields := a;
      robotCount := 0;
      actionLimit := -1;
      traces := map[];
      delay := 100;
      new;
      assert IdsBelow(0) == {};
    }

    /** `new KarelWorld(width, height)`: a world of at least one field, or the size error. */
    static method Create(width: int, height: int) returns (r: Result<KarelWorld, Failure>)
      ensures r.Err? <==> width < 1 || height < 1
      ensures r.Err? ==> r.error == InvalidWorldSize
      ensures r.Ok? ==> fresh(r.value) && fresh(r.value.fields) && r.value.Valid() && r.value.robotCount == 0 &&
                        r.value.traces == map[] && r.value.actionLimit == -1 && r.value.delay == 100 &&
                        r.value.width == width && r.value.height == height &&
                        forall y, x :: 0 <= y < height && 0 <= x < width ==> r.value.fields[y, x] == []
    {
      if width < 1 || height < 1 {
        return Err(InvalidWorldSize);
      }
      var w := new KarelWorld(width, height);
      return Ok(w);
    }

    /** checkXCoordinate: throws exactly for an x outside 0 .. width - 1. */
    function CheckXCoordinate(x: int): (o: Outcome<Failure>)
      reads this
      ensures o.Fail? <==> !(0 <= x < width)
      ensures o.Fail? ==> o.error == InvalidX
    {
      if x > width - 1 || x < 0 then Fail(InvalidX) else Pass
    }

    /** checkYCoordinate: throws exactly for a y outside 0 .. height - 1. */
    function CheckYCoordinate(y: int): (o: Outcome<Failure>)
      reads this
      ensures o.Fail? <==> !(0 <= y < height)
      ensures o.Fail? ==> o.error == InvalidY
    {
      if y > height - 1 || y < 0 then Fail(InvalidY) else Pass
    }

    /** checkNumberOfCoins: throws exactly for a negative count. */
    function CheckNumberOfCoins(n: int): (o: Outcome<Failure>)
      ensures o.Fail? <==> n < 0
      ensures o.Fail? ==> o.error == NegativeCoinCount
    {
      if n < 0 then Fail(NegativeCoinCount) else Pass
    }

    /** isBlockInField: the field holds a block, and then exactly one. */
    predicate IsBlockInField(x: int, y: int)
      requires InBounds(x, y) && FieldsValid()
      reads this, fields
      ensures IsBlockInField(x, y) <==> BlockEntity in fields[y, x]
      ensures IsBlockInField(x, y) <==> Count(fields[y, x], IsBlock) == 1
    {
      CountPositiveIffHas(fields[y, x], IsBlock);
      Has(fields[y, x], IsBlock)
    }

    /** isWallInField: the field holds a wall of the given orientation. */
    predicate IsWallInField(x: int, y: int, horizontal: bool)
      requires InBounds(x, y) && FieldsValid()
      reads this, fields
      ensures IsWallInField(x, y, horizontal) <==> WallEntity(horizontal) in fields[y, x]
    {
      Has(fields[y, x], e => IsWall(e, horizontal))
    }

    /** isCoinInField: the field holds a coin entity, so exactly when at least one coin lies there. */
    predicate IsCoinInField(x: int, y: int)
      requires InBounds(x, y) && FieldsValid()
      reads this, fields
      ensures IsCoinInField(x, y) <==> FieldCoins(fields[y, x]) >= 1
      ensures !IsCoinInField(x, y) ==> FieldCoins(fields[y, x]) == 0
      ensures IsCoinInField(x, y) <==> Count(fields[y, x], IsCoin) == 1
    {
      CountPositiveIffHas(fields[y, x], IsCoin);
      Has(fields[y, x], IsCoin)
    }

    /** isAnotherRobotInField: some entity of the field is a robot other than r. */
    predicate IsAnotherRobotInField(x: int, y: int, r: Robot)
      requires InBounds(x, y) && FieldsValid()
      reads this, fields
      ensures IsAnotherRobotInField(x, y, r) <==> exists e :: e in fields[y, x] && e.RobotEntity? && e.robot != r
    {
      Has(fields[y, x], (e: Entity) => e.RobotEntity? && e.robot != r)
    }

    /** A wall lies between two neighbouring fields: a horizontal wall on the north side of (x, y), a vertical one on its east side. */
    predicate WallBetween(x1: int, y1: int, x2: int, y2: int)
      requires InBounds(x1, y1) && InBounds(x2, y2) && FieldsValid()
      reads this, fields
    {
      if x1 == x2 && y2 == y1 + 1 then IsWallInField(x1, y1, true)
      else if x1 == x2 && y2 == y1 - 1 then IsWallInField(x2, y2, true)
      else if y1 == y2 && x2 == x1 + 1 then IsWallInField(x1, y1, false)
      else if y1 == y2 && x2 == x1 - 1 then IsWallInField(x2, y2, false)
      else false
    }

    /** isFrontClear, for a robot at (x, y) facing d. */
    predicate FrontClearAt(x: int, y: int, d: Direction)
      requires InBounds(x, y) && FieldsValid()
      reads this, fields
      ensures FrontClearAt(x, y, d) <==>
                InBounds(x + Dx(d), y + Dy(d)) &&
                !IsBlockInField(x + Dx(d), y + Dy(d)) &&
                !WallBetween(x, y, x + Dx(d), y + Dy(d))
    {
      match d
      case Up =>
        !(y == height - 1) && !IsBlockInField(x, y + 1) && !IsWallInField(x, y, true)
      case Left =>
        !(x == 0) && !IsBlockInField(x - 1, y) && !IsWallInField(x - 1, y, false)
      case Down =>
        !(y == 0) && !IsBlockInField(x, y - 1) && !IsWallInField(x, y - 1, true)
      case Right =>
        !(x == width - 1) && !IsBlockInField(x + 1, y) && !IsWallInField(x, y, false)
    }

    /** A horizontal wall at (x, y) stops UP from (x, y) and DOWN from (x, y + 1). */
    lemma HorizontalWallBlocks(x: int, y: int)
      requires FieldsValid() && InBounds(x, y) && IsWallInField(x, y, true)
      ensures !FrontClearAt(x, y, Up)
      ensures InBounds(x, y + 1) ==> !FrontClearAt(x, y + 1, Down)
    {
    }

    /** A vertical wall at (x, y) stops RIGHT from (x, y) and LEFT from (x + 1, y). */
    lemma VerticalWallBlocks(x: int, y: int)
      requires FieldsValid() && InBounds(x, y) && IsWallInField(x, y, false)
      ensures !FrontClearAt(x, y, Right)
      ensures InBounds(x + 1, y) ==> !FrontClearAt(x + 1, y, Left)
    {
    }

    twostate predicate FieldsUnchanged()
      reads this, fields
    {
      forall j, i :: 0 <= j < fields.Length0 && 0 <= i < fields.Length1 ==> fields[j, i] == old(fields[j, i])
    }

    twostate predicate OnlyFieldChanged(x: int, y: int)
      reads this, fields
    {
      forall j, i :: 0 <= j < fields.Length0 && 0 <= i < fields.Length1 && (j != y || i != x) ==>
        fields[j, i] == old(fields[j, i])
    }

    /**
     * The effect of updateRobotField(r, oldX, oldY) once r stands at (newX, newY): when r was in the
     * old field it is taken out of it and added to the new one; otherwise nothing changes.
     */
    twostate predicate RobotRelocated(r: Robot, oldX: int, oldY: int, newX: int, newY: int)
      reads this, fields
    {
      forall j, i :: 0 <= j < fields.Length0 && 0 <= i < fields.Length1 ==>
        fields[j, i] ==
          if 0 <= oldY < fields.Length0 && 0 <= oldX < fields.Length1 && RobotEntity(r) in old(fields[oldY, oldX])
          then Relocate(old(fields[j, i]), r, j == oldY && i == oldX, j == newY && i == newX)
          else old(fields[j, i])
    }

    /** addRobot: places the robot in its field, gives it the next id and a fresh empty trace. */
    method AddRobot(robot: Robot) returns (o: Outcome<Failure>)
      requires Valid() && robot.id.None?
      modifies this, fields, robot
      ensures Valid()
      ensures o.Fail? <==> !old(InBounds(robot.x, robot.y))
      ensures o.Fail? ==> o == Fail(IndexOutOfBounds) && robotCount == old(robotCount) && traces == old(traces) &&
                          robot.id == old(robot.id) && FieldsUnchanged()
      ensures o.Pass? ==> (InBounds(robot.x, robot.y) &&
                robot.id == Some(NatToString(old(robotCount))) && robotCount == old(robotCount) + 1 &&
                robot.id.value !in old(traces) &&
                traces == old(traces)[robot.id.value := traces[robot.id.value]] &&
                fresh(traces[robot.id.value]) && traces[robot.id.value].transitions == [] &&
                fields[robot.y, robot.x] == old(fields[robot.y, robot.x]) + [RobotEntity(robot)] &&
                OnlyFieldChanged(robot.x, robot.y))
      ensures robot.x == old(robot.x) && robot.y == old(robot.y) && robot.direction == old(robot.direction)
      ensures robot.numberOfCoins == old(robot.numberOfCoins) && robot.off == old(robot.off)
      ensures robot.imageId == old(robot.imageId)
      ensures actionLimit == old(actionLimit) && delay == old(delay)
    {
      if !InBounds(robot.x, robot.y) {
        return Fail(IndexOutOfBounds);
      }
      RelocateKeepsFieldValid(fields[robot.y, robot.x], robot, false, true);
      fields[robot.y, robot.x] := fields[robot.y, robot.x] + [RobotEntity(robot)];
      var id := RegisterTrace();
      robot.id := Some(id);
      return Pass;
    }

    /** The id and trace bookkeeping of addRobot: the next id, with a fresh empty trace under it. */
    method RegisterTrace() returns (id: string)
      requires TracesValid()
      modifies this
      ensures TracesValid()
      ensures id == NatToString(old(robotCount)) && robotCount == old(robotCount) + 1 && id !in old(traces)
      ensures traces == old(traces)[id := traces[id]] && fresh(traces[id]) && traces[id].transitions == []
      ensures actionLimit == old(actionLimit) && delay == old(delay)
    {
      id := NatToString(robotCount);
      NextIdIsNew(robotCount);
      var t := new RobotTrace();
      TracesGrow(traces, robotCount, t);
      robotCount := robotCount + 1;
      traces := traces[id := t];
    }

    /** pickCoin: takes one coin from the field's first coin entity, removing the entity when it held the last one. */
    method PickCoin(x: int, y: int) returns (picked: bool)
      requires Valid() && InBounds(x, y)
      modifies fields
      ensures Valid() && OnlyFieldChanged(x, y)
      ensures picked <==> old(Has(fields[y, x], IsCoin))
      ensures !picked ==> fields[y, x] == old(fields[y, x])
      ensures picked ==> FieldCoins(fields[y, x]) == old(FieldCoins(fields[y, x])) - 1
      ensures picked ==> (Has(fields[y, x], IsCoin) <==> old(FieldCoins(fields[y, x])) > 1)
      ensures picked ==>
                var cell := old(fields[y, x]);
                var k := FirstCoin(cell).value;
                fields[y, x] == if cell[k].count > 1 then cell[k := CoinEntity(cell[k].count - 1)]
                                else cell[..k] + cell[k + 1..]
    {
      var cell := fields[y, x];
      var i := 0;
      while i < |cell|
        invariant 0 <= i <= |cell|
        invariant forall j :: 0 <= j < i ==> !cell[j].CoinEntity?
      {
        if cell[i].CoinEntity? {
          assert FirstCoin(cell) == Some(i);
          if cell[i].count > 1 {
            RecountedCoin(cell, i, cell[i].count - 1);
            StoreField(x, y, cell[i := CoinEntity(cell[i].count - 1)]);
            assert IsCoin(fields[y, x][i]);
          } else {
            RemovedOnlyCoin(cell, i);
            StoreField(x, y, cell[..i] + cell[i + 1..]);
          }
          return true;
        }
        i := i + 1;
      }
      return false;
    }

    /** Stores a valid entity list as the list of field (x, y). */
    method StoreField(x: int, y: int, cell: seq<Entity>)
      requires Valid() && InBounds(x, y) && FieldValid(cell)
      modifies fields
      ensures Valid() && OnlyFieldChanged(x, y) && fields[y, x] == cell
    {
      fields[y, x] := cell;
    }

    /** putCoins: adds n coins to the field's coin entity, or places a new one holding n. */
    method PutCoins(x: int, y: int, n: int) returns (o: Outcome<Failure>)
      requires Valid()
      modifies fields
      ensures Valid() && OnlyFieldChanged(x, y)
      ensures o.Fail? <==> !InBounds(x, y) || n < 1
      ensures !(0 <= x < width) ==> o == Fail(InvalidX)
      ensures 0 <= x < width && !(0 <= y < height) ==> o == Fail(InvalidY)
      ensures InBounds(x, y) && n < 0 ==> o == Fail(NegativeCoinCount)
      ensures InBounds(x, y) && n == 0 ==> o == Fail(CoinCountBelowOne)
      ensures o.Fail? ==> FieldsUnchanged()
      ensures o.Pass? ==> FieldCoins(fields[y, x]) == old(FieldCoins(fields[y, x])) + n
      ensures o.Pass? ==>
                var cell := old(fields[y, x]);
                fields[y, x] == match FirstCoin(cell)
                  case Some(k) => cell[k := CoinEntity(cell[k].count + n)]
                  case None => cell + [CoinEntity(n)]
    {
      o := CheckXCoordinate(x);
      if o.Fail? { return; }
      o := CheckYCoordinate(y);
      if o.Fail? { return; }
      o := CheckNumberOfCoins(n);
      if o.Fail? { return; }
      if n < 1 {
        return Fail(CoinCountBelowOne);
      }
      var cell := fields[y, x];
      var first := FindFirstCoin(cell);
      match first
      case Some(i) =>
        RecountedCoin(cell, i, cell[i].count + n);
        StoreField(x, y, cell[i := CoinEntity(cell[i].count + n)]);
      case None =>
        AppendedNewKind(cell, CoinEntity(n));
        StoreField(x, y, cell + [CoinEntity(n)]);
        assert IsCoin(fields[y, x][|cell|]);
        assert FirstCoin(fields[y, x]) == Some(|cell|);
      o := Pass;
    }

    /** placeBlock: validates the position and adds a block unless the field holds one. */
    method PlaceBlock(x: int, y: int) returns (o: Outcome<Failure>)
      requires Valid()
      modifies fields
      ensures Valid() && OnlyFieldChanged(x, y)
      ensures o.Fail? <==> !InBounds(x, y)
      ensures !(0 <= x < width) ==> o == Fail(InvalidX)
      ensures 0 <= x < width && !(0 <= y < height) ==> o == Fail(InvalidY)
      ensures o.Fail? ==> FieldsUnchanged()
      ensures o.Pass? ==> fields[y, x] == WithBlock(old(fields[y, x])) && IsBlockInField(x, y)
    {
      o := CheckXCoordinate(x);
      if o.Fail? { return; }
      o := CheckYCoordinate(y);
      if o.Fail? { return; }
      WithBlockIdempotent(fields[y, x]);
      if Has(fields[y, x], IsBlock) {
        return;
      }
      fields[y, x] := fields[y, x] + [BlockEntity];
    }

    /** placeWall: validates the position and adds a wall unless the field holds one of that orientation. */
    method PlaceWall(x: int, y: int, horizontal: bool) returns (o: Outcome<Failure>)
      requires Valid()
      modifies fields
      ensures Valid() && OnlyFieldChanged(x, y)
      ensures o.Fail? <==> !InBounds(x, y)
      ensures !(0 <= x < width) ==> o == Fail(InvalidX)
      ensures 0 <= x < width && !(0 <= y < height) ==> o == Fail(InvalidY)
      ensures o.Fail? ==> FieldsUnchanged()
      ensures o.Pass? ==> fields[y, x] == WithWall(old(fields[y, x]), horizontal) && IsWallInField(x, y, horizontal)
    {
      o := CheckXCoordinate(x);
      if o.Fail? { return; }
      o := CheckYCoordinate(y);
      if o.Fail? { return; }
      WithWallIdempotent(fields[y, x], horizontal);
      if IsWallInField(x, y, horizontal) {
        return;
      }
      fields[y, x] := fields[y, x] + [WallEntity(horizontal)];
    }

    method PlaceHorizontalWall(x: int, y: int) returns (o: Outcome<Failure>)
      requires Valid()
      modifies fields
      ensures Valid() && OnlyFieldChanged(x, y)
      ensures o.Fail? <==> !InBounds(x, y)
      ensures !(0 <= x < width) ==> o == Fail(InvalidX)
      ensures 0 <= x < width && !(0 <= y < height) ==> o == Fail(InvalidY)
      ensures o.Fail? ==> FieldsUnchanged()
      ensures o.Pass? ==> fields[y, x] == WithWall(old(fields[y, x]), true) && IsWallInField(x, y, true)
    {
      o := PlaceWall(x, y, true);
    }

    method PlaceVerticalWall(x: int, y: int) returns (o: Outcome<Failure>)
      requires Valid()
      modifies fields
      ensures Valid() && OnlyFieldChanged(x, y)
      ensures o.Fail? <==> !InBounds(x, y)
      ensures !(0 <= x < width) ==> o == Fail(InvalidX)
      ensures 0 <= x < width && !(0 <= y < height) ==> o == Fail(InvalidY)
      ensures o.Fail? ==> FieldsUnchanged()
      ensures o.Pass? ==> fields[y, x] == WithWall(old(fields[y, x]), false) && IsWallInField(x, y, false)
    {
      o := PlaceWall(x, y, false);
    }

    /** reset: empties every field. */
    method Reset()
      requires Valid()
      modifies fields
      ensures Valid()
      ensures forall y, x :: 0 <= y < height && 0 <= x < width ==> fields[y, x] == []
    {
      var y := 0;
      while y < height
        invariant 0 <= y <= height
        invariant forall j, i :: 0 <= j < height && 0 <= i < width ==> FieldValid(fields[j, i])
        invariant forall j, i :: 0 <= j < y && 0 <= i < width ==> fields[j, i] == []
      {
        var x := 0;
        while x < width
          invariant 0 <= x <= width
          invariant forall j, i :: 0 <= j < height && 0 <= i < width ==> FieldValid(fields[j, i])
          invariant forall j, i :: 0 <= j < y && 0 <= i < width ==> fields[j, i] == []
          invariant forall i :: 0 <= i < x ==> fields[y, i] == []
        {
          fields[y, x] := [];
          x := x + 1;
        }
        y := y + 1;
      }
    }

    /** updateRobotField: moves the robot from the old field to its current one, if it was in the old field. */
    method UpdateRobotField(robot: Robot, oldX: int, oldY: int)
      requires Valid() && InBounds(oldX, oldY) && InBounds(robot.x, robot.y)
      modifies fields
      ensures Valid()
      ensures RobotRelocated(robot, oldX, oldY, robot.x, robot.y)
      ensures !old(RobotEntity(robot) in fields[oldY, oldX]) ==> FieldsUnchanged()
      ensures RobotEntity(robot) !in fields[oldY, oldX] || (robot.x == oldX && robot.y == oldY)
    {
      var cell := fields[oldY, oldX];
      if RobotEntity(robot) in cell {
        RelocateKeepsFieldValid(cell, robot, true, oldX == robot.x && oldY == robot.y);
        RelocateKeepsFieldValid(fields[robot.y, robot.x], robot, false, true);
        fields[oldY, oldX] := WithoutRobot(cell, robot);
        fields[robot.y, robot.x] := fields[robot.y, robot.x] + [RobotEntity(robot)];
      }
    }

    /** The length of every robot's trace, by id. */
    function TraceLengthMap(): map<string, nat>
      reads this, traces.Values
    {
      map id | id in traces :: |traces[id].transitions|
    }

    /** getActionCount: the number of transitions in all traces together. */
    function ActionCount(): (n: int)
      requires TracesValid()
      reads this, traces.Values
      ensures forall id :: id in traces ==> |traces[id].transitions| <= n
      ensures n == 0 <==> forall id :: id in traces ==> traces[id].transitions == []
    {
      SumBelowBounds(robotCount, TraceLengthMap());
      SumBelow(robotCount, TraceLengthMap())
    }

    /** checkActionLimit: throws once the traces hold at least as many transitions as a non-negative limit allows. */
    function CheckActionLimit(): (o: Outcome<Failure>)
      requires TracesValid()
      reads this, traces.Values
      ensures o.Fail? <==> 0 <= actionLimit <= ActionCount()
      ensures o.Fail? ==> o.error == TooManyTraces
    {
      if actionLimit >= 0 && ActionCount() >= actionLimit then Fail(TooManyTraces) else Pass
    }

    method SetActionLimit(limit: int)
      modifies this
      ensures actionLimit == limit
      ensures robotCount == old(robotCount) && traces == old(traces) && delay == old(delay)
    {
      actionLimit := limit;
    }

    method SetDelay(d: int)
      modifies this
      ensures delay == d
      ensures robotCount == old(robotCount) && traces == old(traces) && actionLimit == old(actionLimit)
    {
      delay := d;
    }

    /** trace: appends to the robot's own trace, so the action count rises by exactly one. */
    method Trace(robot: Robot, action: RobotAction, counter: StepCounter, g: GlobalWorld) returns (o: Outcome<Failure>)
      requires TracesValid() && robot.id.Some? && robot.id.value in traces
      requires counter.Valid() && g.TracesReady()
      modifies traces[robot.id.value], counter
      ensures counter.Valid() && counter.nextStep == IntSucc(old(counter.nextStep))
      ensures traces[robot.id.value].transitions ==
                old(traces[robot.id.value].transitions) + [Transition(old(counter.nextStep), action, robot.Copy())]
      ensures forall id :: id in traces && id != robot.id.value ==> traces[id].transitions == old(traces[id].transitions)
      ensures o == g.LimitOutcome()
    {
      var t := traces[robot.id.value];
      o := t.Trace(robot, action, counter, g);
      forall id | id in traces && id != robot.id.value
        ensures traces[id].transitions == old(traces[id].transitions)
      {
        assert traces[id] != t;
      }
    }

    /**
     * What trace does to the action count: when only one robot's trace has changed, and has grown by
     * one transition, the count has risen by exactly one. (trace changes nothing but that trace and
     * the step counter, and the traces of distinct ids are distinct objects.)
     */
    twostate lemma TraceAddsOneAction(id: string)
      requires old(TracesValid()) && TracesValid()
      requires robotCount == old(robotCount) && traces == old(traces) && id in traces
      requires forall k :: k in traces && k != id ==> traces[k].transitions == old(traces[k].transitions)
      requires |traces[id].transitions| == |old(traces[id].transitions)| + 1
      ensures ActionCount() == old(ActionCount()) + 1
    {
      SumBelowChanged(robotCount, old(TraceLengthMap()), TraceLengthMap(), id);
    }
  }

  /** The sum of the values that m gives the ids "0" to the decimal text of n - 1. */
  function SumBelow(n: nat, m: map<string, nat>): nat
    requires IdsBelow(n) <= m.Keys
    decreases n
  {
    if n == 0 then 0 else SumBelow(n - 1, m) + m[NatToString(n - 1)]
  }

  /** Each counted value is at most the sum, and the sum is 0 exactly when every counted value is. */
  lemma {:induction false} SumBelowBounds(n: nat, m: map<string, nat>)
    requires IdsBelow(n) <= m.Keys
    ensures forall id :: id in IdsBelow(n) ==> m[id] <= SumBelow(n, m)
    ensures SumBelow(n, m) == 0 <==> forall id :: id in IdsBelow(n) ==> m[id] == 0
    decreases n
  {
    if n > 0 {
      SumBelowBounds(n - 1, m);
    }
  }

  /** When two maps differ at most at one id, their sums differ by the change there if the id is counted, and not at all otherwise. */
  lemma {:induction false} SumBelowChanged(n: nat, m: map<string, nat>, m': map<string, nat>, id: string)
    requires IdsBelow(n) <= m.Keys && m'.Keys == m.Keys && id in m
    requires forall k :: k in m && k != id ==> m'[k] == m[k]
    ensures SumBelow(n, m') == SumBelow(n, m) + if id in IdsBelow(n) then m'[id] as int - m[id] else 0
    decreases n
  {
    if n > 0 {
      SumBelowChanged(n - 1, m, m', id);
      if id == NatToString(n - 1) {
        NextIdIsNew(n - 1);
      }
    }
  }

  class Robot {
    var x: int
    var y: int
    var direction: Direction
    var numberOfCoins: int
    var id: Option<string>
    var imageId: Option<string>
    var off: bool
    const world: KarelWorld

    /** The robot's copy constructor, as kept in a transition. */
    function Copy(): (c: RobotCopy)
      reads this
      ensures c.x == x && c.y == y && c.direction == direction && c.numberOfCoins == numberOfCoins
      ensures c.id == id && c.imageId == imageId && c.off == off
    {
      RobotCopy(x, y, direction, numberOfCoins, id, imageId, off)
    }

    /** A robot of a world: on a field of it, with an id that has a trace. */
    ghost predicate Valid()
      reads this, world, world.fields
    {
      world.Valid() && world.InBounds(x, y) && id.Some? && id.value in world.traces && IsInt(numberOfCoins)
    }

    /** The static state an action relies on. */
    ghost predicate Ready(counter: StepCounter, g: GlobalWorld)
      reads counter, g, g.world
    {
      counter.Valid() && g.TracesReady()
    }

    function MyTrace(): RobotTrace
      requires Valid()
      reads this, world, world.fields
    {
      world.traces[id.value]
    }

    constructor Init(world: KarelWorld, x: int, y: int, direction: Direction, numberOfCoins: int)
      ensures this.world == world && this.x == x && this.y == y && this.direction == direction
      ensures this.numberOfCoins == numberOfCoins && id.None? && imageId.None? && !off
    {
      this.world := world;
      this.x := x;
      this.y := y;
      this.direction := direction;
      this.numberOfCoins := numberOfCoins;
      id := None;
      imageId := None;
      off := false;
    }

    /** The robot constructors taking a world: validate position and coins, then add the robot to the world. */
    static method Create(world: KarelWorld, x: int, y: int, direction: Direction, numberOfCoins: int)
      returns (r: Result<Robot, Failure>)
      requires world.Valid() && IsInt(numberOfCoins)
      modifies world, world.fields
      ensures world.Valid()
      ensures !(0 <= x < world.width) ==> r == Err(InvalidX)
      ensures 0 <= x < world.width && !(0 <= y < world.height) ==> r == Err(InvalidY)
      ensures world.InBounds(x, y) && numberOfCoins < 0 ==> r == Err(NegativeCoinCount)
      ensures r.Ok? <==> world.InBounds(x, y) && numberOfCoins >= 0
      ensures r.Err? ==> world.robotCount == old(world.robotCount) && world.traces == old(world.traces) &&
                         world.FieldsUnchanged()
      ensures r.Ok? ==> fresh(r.value) && r.value.Valid() && r.value.world == world &&
                        r.value.x == x && r.value.y == y && r.value.direction == direction &&
                        r.value.numberOfCoins == numberOfCoins && !r.value.off &&
                        r.value.id == Some(NatToString(old(world.robotCount))) &&
                        world.robotCount == old(world.robotCount) + 1 &&
                        r.value.MyTrace().transitions == [] &&
                        world.fields[y, x] == old(world.fields[y, x]) + [RobotEntity(r.value)]
    {
      var o := world.CheckXCoordinate(x);
      if o.Fail? { return Err(o.error); }
      o := world.CheckYCoordinate(y);
      if o.Fail? { return Err(o.error); }
      o := world.CheckNumberOfCoins(numberOfCoins);
      if o.Fail? { return Err(o.error); }
      var robot := new Robot.Init(world, x, y, direction, numberOfCoins);
      o := world.AddRobot(robot);
      return Ok(robot);
    }

    /** The constructors without a world take the global one, and fail when there is none. */
    static method CreateInGlobal(g: GlobalWorld, x: int, y: int, direction: Direction, numberOfCoins: int)
      returns (r: Result<Robot, Failure>)
      requires g.Valid() && IsInt(numberOfCoins)
      modifies if g.world != null then {g.world, g.world.fields} else {}
      ensures g.Valid()
      ensures !g.global ==> r == Err(NoGlobalWorld)
      ensures r.Ok? <==> g.global && g.world.InBounds(x, y) && numberOfCoins >= 0
      ensures g.global && !(0 <= x < g.world.width) ==> r == Err(InvalidX)
      ensures g.global && 0 <= x < g.world.width && !(0 <= y < g.world.height) ==> r == Err(InvalidY)
      ensures g.global && g.world.InBounds(x, y) && numberOfCoins < 0 ==> r == Err(NegativeCoinCount)
      ensures g.global && r.Err? ==> g.world.robotCount == old(g.world.robotCount) &&
                                     g.world.traces == old(g.world.traces) && g.world.FieldsUnchanged()
      ensures r.Ok? ==> fresh(r.value) && r.value.Valid() && r.value.world == g.world &&
                        r.value.x == x && r.value.y == y && r.value.direction == direction &&
                        r.value.numberOfCoins == numberOfCoins && !r.value.off &&
                        r.value.id == Some(NatToString(old(g.world.robotCount))) &&
                        g.world.robotCount == old(g.world.robotCount) + 1 &&
                        r.value.MyTrace().transitions == [] &&
                        g.world.fields[y, x] == old(g.world.fields[y, x]) + [RobotEntity(r.value)]
    {
      if !g.global {
        return Err(NoGlobalWorld);
      }
      r := Create(g.world, x, y, direction, numberOfCoins);
    }

    /** isFrontClear: the field ahead exists, holds no block, and no wall lies between. */
    predicate FrontClear()
      requires Valid()
      reads this, world, world.fields
    {
      world.FrontClearAt(x, y, direction)
    }

    /** What isFrontClear tests, stated apart from the predicate so that its callers stay cheap. */
    lemma FrontClearIff()
      requires Valid()
      ensures FrontClear() <==>
                world.InBounds(x + Dx(direction), y + Dy(direction)) &&
                !world.IsBlockInField(x + Dx(direction), y + Dy(direction)) &&
                !world.WallBetween(x, y, x + Dx(direction), y + Dy(direction))
    {
    }

    /** isOnACoin: at least one coin lies on the robot's field. */
    function IsOnACoin(): (b: bool)
      requires Valid()
      reads this, world, world.fields
      ensures b <==> FieldCoins(world.fields[y, x]) >= 1
    {
      world.IsCoinInField(x, y)
    }

    /** isOnAnotherRobot: another robot stands on the robot's field. */
    function IsOnAnotherRobot(): (b: bool)
      requires Valid()
      reads this, world, world.fields
      ensures b <==> exists e :: e in world.fields[y, x] && e.RobotEntity? && e.robot != this
    {
      world.IsAnotherRobotInField(x, y, this)
    }

    /** turnLeft: traced first; a turned-off robot does not turn. */
    method TurnLeft(counter: StepCounter, g: GlobalWorld) returns (o: Outcome<Failure>)
      requires Valid() && Ready(counter, g)
      modifies MyTrace(), counter, this
      ensures Valid() && Ready(counter, g)
      ensures MyTrace().transitions ==
                old(MyTrace().transitions) + [Transition(old(counter.nextStep), RobotAction.TurnLeft, old(Copy()))]
      ensures o == g.LimitOutcome()
      ensures direction == if o.Pass? && !old(off) then LeftOf(old(direction)) else old(direction)
      ensures x == old(x) && y == old(y) && numberOfCoins == old(numberOfCoins) && off == old(off) && id == old(id)
      ensures imageId == old(imageId)
    {
      o := world.Trace(this, RobotAction.TurnLeft, counter, g);
      if o.Fail? || off {
        return;
      }
      direction := LeftOf(direction);
    }

    /** turnOff: traced first; the robot is off only once the trace did not throw. */
    method TurnOff(counter: StepCounter, g: GlobalWorld) returns (o: Outcome<Failure>)
      requires Valid() && Ready(counter, g)
      modifies MyTrace(), counter, this
      ensures Valid() && Ready(counter, g)
      ensures MyTrace().transitions ==
                old(MyTrace().transitions) + [Transition(old(counter.nextStep), RobotAction.TurnOff, old(Copy()))]
      ensures o == g.LimitOutcome()
      ensures off == (old(off) || o.Pass?)
      ensures x == old(x) && y == old(y) && numberOfCoins == old(numberOfCoins) && direction == old(direction)
      ensures id == old(id) && imageId == old(imageId)
    {
      o := world.Trace(this, RobotAction.TurnOff, counter, g);
      if o.Fail? {
        return;
      }
      off := true;
    }

    /** crash: turns the robot off and throws "Robot crashed!". */
    method Crash(counter: StepCounter, g: GlobalWorld) returns (o: Outcome<Failure>)
      requires Valid() && Ready(counter, g)
      modifies MyTrace(), counter, this
      ensures Valid() && Ready(counter, g)
      ensures MyTrace().transitions ==
                old(MyTrace().transitions) + [Transition(old(counter.nextStep), RobotAction.TurnOff, old(Copy()))]
      ensures o.Fail?
      ensures o == Fail(RobotCrashed) <==> g.LimitOutcome().Pass?
      ensures off == (old(off) || o == Fail(RobotCrashed))
      ensures x == old(x) && y == old(y) && numberOfCoins == old(numberOfCoins) && direction == old(direction)
      ensures id == old(id) && imageId == old(imageId)
    {
      o := TurnOff(counter, g);
      if o.Pass? {
        o := Fail(RobotCrashed);
      }
    }

    /** setXRobot: validates x, then moves a running robot along the row. */
    method SetXRobot(nx: int) returns (o: Outcome<Failure>)
      requires Valid()
      modifies this, world.fields
      ensures Valid()
      ensures o == world.CheckXCoordinate(nx)
      ensures y == old(y) && direction == old(direction) && numberOfCoins == old(numberOfCoins)
      ensures off == old(off) && id == old(id) && imageId == old(imageId)
      ensures if o.Fail? || old(off) then x == old(x) && world.FieldsUnchanged()
              else x == nx && world.RobotRelocated(this, old(x), old(y), x, y)
    {
      o := world.CheckXCoordinate(nx);
      if o.Fail? || off {
        return;
      }
      var oldX := x;
      x := nx;
      world.UpdateRobotField(this, oldX, y);
    }

    /** setYRobot: validates y, then moves a running robot along the column. */
    method SetYRobot(ny: int) returns (o: Outcome<Failure>)
      requires Valid()
      modifies this, world.fields
      ensures Valid()
      ensures o == world.CheckYCoordinate(ny)
      ensures x == old(x) && direction == old(direction) && numberOfCoins == old(numberOfCoins)
      ensures off == old(off) && id == old(id) && imageId == old(imageId)
      ensures if o.Fail? || old(off) then y == old(y) && world.FieldsUnchanged()
              else y == ny && world.RobotRelocated(this, old(x), old(y), x, y)
    {
      o := world.CheckYCoordinate(ny);
      if o.Fail? || off {
        return;
      }
      var oldY := y;
      y := ny;
      world.UpdateRobotField(this, x, oldY);
    }

    /**
     * move: traced first. A turned-off robot stays put; a robot whose front is not clear
     * crashes; any other robot steps one field in its direction, and its field entry follows it.
     */
    method Move(counter: StepCounter, g: GlobalWorld) returns (o: Outcome<Failure>)
      requires Valid() && Ready(counter, g)
      modifies this, world.fields, MyTrace(), counter
      ensures Valid() && Ready(counter, g)
      ensures direction == old(direction) && numberOfCoins == old(numberOfCoins) && id == old(id)
      ensures imageId == old(imageId)
      ensures var first := Transition(old(counter.nextStep), RobotAction.Move, old(Copy()));
              old(off) || old(FrontClear()) ==>
                MyTrace().transitions == old(MyTrace().transitions) + [first] && o == g.LimitOutcome()
      ensures var first := Transition(old(counter.nextStep), RobotAction.Move, old(Copy()));
              var crash := Transition(IntSucc(old(counter.nextStep)), RobotAction.TurnOff, old(Copy()));
              !old(off) && !old(FrontClear()) ==>
                o.Fail? &&
                (MyTrace().transitions == old(MyTrace().transitions) + [first] ||
                 MyTrace().transitions == old(MyTrace().transitions) + [first] + [crash]) &&
                (o == Fail(RobotCrashed) <==> g.LimitOutcome().Pass?) &&
                (g.LimitOutcome().Pass? ==> MyTrace().transitions == old(MyTrace().transitions) + [first] + [crash])
      ensures off == (old(off) || o == Fail(RobotCrashed))
      ensures o.Fail? || old(off) ==> x == old(x) && y == old(y) && world.FieldsUnchanged()
      ensures o.Pass? && !old(off) ==>
                x == old(x) + Dx(direction) && y == old(y) + Dy(direction) &&
                world.RobotRelocated(this, old(x), old(y), x, y)
    {
      o := world.Trace(this, RobotAction.Move, counter, g);
      if o.Fail? || off {
        return;
      }
      assert FrontClear() == old(FrontClear());
      o := CrashOrStep(counter, g);
    }

    /** The part of move after the trace, for a running robot: crash when the front is not clear, step otherwise. */
    method CrashOrStep(counter: StepCounter, g: GlobalWorld) returns (o: Outcome<Failure>)
      requires Valid() && Ready(counter, g) && !off
      modifies this, world.fields, MyTrace(), counter
      ensures Valid() && Ready(counter, g)
      ensures direction == old(direction) && numberOfCoins == old(numberOfCoins) && id == old(id)
      ensures imageId == old(imageId)
      ensures old(FrontClear()) ==>
                o.Pass? && !off && MyTrace().transitions == old(MyTrace().transitions) && counter.nextStep == old(counter.nextStep) &&
                g.LimitOutcome() == old(g.LimitOutcome()) &&
                x == old(x) + Dx(direction) && y == old(y) + Dy(direction) &&
                world.RobotRelocated(this, old(x), old(y), x, y)
      ensures !old(FrontClear()) ==>
                o.Fail? && x == old(x) && y == old(y) && world.FieldsUnchanged() &&
                MyTrace().transitions ==
                  old(MyTrace().transitions) + [Transition(old(counter.nextStep), RobotAction.TurnOff, old(Copy()))] &&
                (o == Fail(RobotCrashed) <==> g.LimitOutcome().Pass?) &&
                off == (o == Fail(RobotCrashed))
    {
      if !FrontClear() {
        o := Crash(counter, g);
        return;
      }
      o := StepClear(counter, g);
    }

    /** The step of move when the front is clear: no further trace, one field forward. */
    method StepClear(counter: StepCounter, g: GlobalWorld) returns (o: Outcome<Failure>)
      requires Valid() && Ready(counter, g) && !off && FrontClear()
      modifies this, world.fields
      ensures Valid() && Ready(counter, g)
      ensures direction == old(direction) && numberOfCoins == old(numberOfCoins) && id == old(id)
      ensures imageId == old(imageId)
      ensures o.Pass? && !off && MyTrace().transitions == old(MyTrace().transitions) && counter.nextStep == old(counter.nextStep) &&
              g.LimitOutcome() == old(g.LimitOutcome()) &&
              x == old(x) + Dx(direction) && y == old(y) + Dy(direction) &&
              world.RobotRelocated(this, old(x), old(y), x, y)
    {
      StepForward();
      assert unchanged(counter, g) && (g.world != null ==> unchanged(g.world));
      o := Pass;
    }

    /**
     * The stepping part of move for a running robot whose front is clear: the coordinate in its
     * direction changes by one through setXRobot or setYRobot, then updateRobotField runs once more
     * for the old position, which no longer holds the robot and so changes nothing.
     */
    method StepForward()
      requires Valid() && !off && FrontClear()
      modifies this, world.fields
      ensures Valid()
      ensures direction == old(direction) && numberOfCoins == old(numberOfCoins) && id == old(id)
      ensures imageId == old(imageId) && !off
      ensures x == old(x) + Dx(direction) && y == old(y) + Dy(direction)
      ensures world.RobotRelocated(this, old(x), old(y), x, y)
    {
      match direction
      case Up => StepToRow(y + 1);
      case Left => StepToColumn(x - 1);
      case Down => StepToRow(y - 1);
      case Right => StepToColumn(x + 1);
    }

    /** setYRobot to a neighbouring row, then move's updateRobotField for the field it left, which no longer holds the robot. */
    method StepToRow(ny: int)
      requires Valid() && !off && world.InBounds(x, ny) && ny != y
      modifies this, world.fields
      ensures Valid() && !off
      ensures direction == old(direction) && numberOfCoins == old(numberOfCoins) && id == old(id)
      ensures imageId == old(imageId) && x == old(x) && y == ny
      ensures world.RobotRelocated(this, old(x), old(y), x, y)
    {
      var oldX, oldY := x, y;
      var o := SetYRobot(ny);
      world.UpdateRobotField(this, oldX, oldY);
    }

    /** setXRobot to a neighbouring column, then move's updateRobotField for the field it left. */
    method StepToColumn(nx: int)
      requires Valid() && !off && world.InBounds(nx, y) && nx != x
      modifies this, world.fields
      ensures Valid() && !off
      ensures direction == old(direction) && numberOfCoins == old(numberOfCoins) && id == old(id)
      ensures imageId == old(imageId) && x == nx && y == old(y)
      ensures world.RobotRelocated(this, old(x), old(y), x, y)
    {
      var oldX, oldY := x, y;
      var o := SetXRobot(nx);
      world.UpdateRobotField(this, oldX, oldY);
    }

    /** putCoin: traced first; a running robot with coins drops one on its field, one without crashes. */
    method PutCoin(counter: StepCounter, g: GlobalWorld) returns (o: Outcome<Failure>)
      requires Valid() && Ready(counter, g)
      modifies this, world.fields, MyTrace(), counter
      ensures Valid() && Ready(counter, g)
      ensures x == old(x) && y == old(y) && direction == old(direction) && id == old(id) && imageId == old(imageId)
      ensures var first := Transition(old(counter.nextStep), RobotAction.PutCoin, old(Copy()));
              old(off) || old(numberOfCoins) > 0 ==>
                MyTrace().transitions == old(MyTrace().transitions) + [first] && o == g.LimitOutcome()
      ensures var first := Transition(old(counter.nextStep), RobotAction.PutCoin, old(Copy()));
              var crash := Transition(IntSucc(old(counter.nextStep)), RobotAction.TurnOff, old(Copy()));
              !old(off) && old(numberOfCoins) <= 0 ==>
                o.Fail? &&
                (MyTrace().transitions == old(MyTrace().transitions) + [first] ||
                 MyTrace().transitions == old(MyTrace().transitions) + [first] + [crash]) &&
                (o == Fail(RobotCrashed) <==> g.LimitOutcome().Pass?) &&
                (g.LimitOutcome().Pass? ==> MyTrace().transitions == old(MyTrace().transitions) + [first] + [crash])
      ensures off == (old(off) || o == Fail(RobotCrashed))
      ensures o.Fail? || old(off) ==> numberOfCoins == old(numberOfCoins) && world.FieldsUnchanged()
      ensures o.Pass? && !old(off) ==>
                numberOfCoins == old(numberOfCoins) - 1 && world.OnlyFieldChanged(x, y) &&
                FieldCoins(world.fields[y, x]) == old(FieldCoins(world.fields[y, x])) + 1
    {
      o := world.Trace(this, RobotAction.PutCoin, counter, g);
      if o.Fail? || off {
        return;
      }
      o := DropOrCrash(counter, g);
    }

    /** The part of putCoin after the trace, for a running robot. */
    method DropOrCrash(counter: StepCounter, g: GlobalWorld) returns (o: Outcome<Failure>)
      requires Valid() && Ready(counter, g) && !off
      modifies this, world.fields, MyTrace(), counter
      ensures Valid() && Ready(counter, g)
      ensures x == old(x) && y == old(y) && direction == old(direction) && id == old(id) && imageId == old(imageId)
      ensures old(numberOfCoins) > 0 ==>
                o.Pass? && !off && MyTrace().transitions == old(MyTrace().transitions) &&
                counter.nextStep == old(counter.nextStep) && g.LimitOutcome() == old(g.LimitOutcome()) &&
                numberOfCoins == old(numberOfCoins) - 1 && world.OnlyFieldChanged(x, y) &&
                FieldCoins(world.fields[y, x]) == old(FieldCoins(world.fields[y, x])) + 1
      ensures old(numberOfCoins) <= 0 ==>
                o.Fail? && numberOfCoins == old(numberOfCoins) && world.FieldsUnchanged() &&
                MyTrace().transitions ==
                  old(MyTrace().transitions) + [Transition(old(counter.nextStep), RobotAction.TurnOff, old(Copy()))] &&
                (o == Fail(RobotCrashed) <==> g.LimitOutcome().Pass?) &&
                off == (o == Fail(RobotCrashed))
    {
      if numberOfCoins > 0 {
        ghost var limit := g.LimitOutcome();
        o := Drop();
        assert g.LimitOutcome() == limit;
      } else {
        o := Crash(counter, g);
      }
    }

    /** One coin goes from the robot to its field, through putCoins(x, y, 1). */
    method Drop() returns (o: Outcome<Failure>)
      requires Valid() && numberOfCoins > 0
      modifies this, world.fields
      ensures Valid() && o.Pass?
      ensures x == old(x) && y == old(y) && direction == old(direction) && id == old(id) && imageId == old(imageId)
      ensures off == old(off) && numberOfCoins == old(numberOfCoins) - 1
      ensures world.OnlyFieldChanged(x, y) && FieldCoins(world.fields[y, x]) == old(FieldCoins(world.fields[y, x])) + 1
    {
      numberOfCoins := numberOfCoins - 1;
      o := world.PutCoins(x, y, 1);
    }

    /** pickCoin: traced first; a running robot takes a coin from its field, or crashes when there is none. */
    method PickCoin(counter: StepCounter, g: GlobalWorld) returns (o: Outcome<Failure>)
      requires Valid() && Ready(counter, g)
      modifies this, world.fields, MyTrace(), counter
      ensures Valid() && Ready(counter, g)
      ensures x == old(x) && y == old(y) && direction == old(direction) && id == old(id) && imageId == old(imageId)
      ensures var first := Transition(old(counter.nextStep), RobotAction.PickCoin, old(Copy()));
              old(off) || old(IsOnACoin()) ==>
                MyTrace().transitions == old(MyTrace().transitions) + [first] && o == g.LimitOutcome()
      ensures var first := Transition(old(counter.nextStep), RobotAction.PickCoin, old(Copy()));
              var crash := Transition(IntSucc(old(counter.nextStep)), RobotAction.TurnOff, old(Copy()));
              !old(off) && !old(IsOnACoin()) ==>
                o.Fail? &&
                (MyTrace().transitions == old(MyTrace().transitions) + [first] ||
                 MyTrace().transitions == old(MyTrace().transitions) + [first] + [crash]) &&
                (o == Fail(RobotCrashed) <==> g.LimitOutcome().Pass?) &&
                (g.LimitOutcome().Pass? ==> MyTrace().transitions == old(MyTrace().transitions) + [first] + [crash])
      ensures off == (old(off) || o == Fail(RobotCrashed))
      ensures o.Fail? || old(off) ==> numberOfCoins == old(numberOfCoins) && world.FieldsUnchanged()
      ensures o.Pass? && !old(off) ==>
                numberOfCoins == IntSucc(old(numberOfCoins)) && world.OnlyFieldChanged(x, y) &&
                FieldCoins(world.fields[y, x]) == old(FieldCoins(world.fields[y, x])) - 1
    {
      o := world.Trace(this, RobotAction.PickCoin, counter, g);
      if o.Fail? || off {
        return;
      }
      assert IsOnACoin() == old(IsOnACoin());
      o := TakeOrCrash(counter, g);
    }

    /** The part of pickCoin after the trace, for a running robot. */
    method TakeOrCrash(counter: StepCounter, g: GlobalWorld) returns (o: Outcome<Failure>)
      requires Valid() && Ready(counter, g) && !off
      modifies this, world.fields, MyTrace(), counter
      ensures Valid() && Ready(counter, g)
      ensures x == old(x) && y == old(y) && direction == old(direction) && id == old(id) && imageId == old(imageId)
      ensures old(IsOnACoin()) ==>
                o.Pass? && !off && MyTrace().transitions == old(MyTrace().transitions) &&
                counter.nextStep == old(counter.nextStep) && g.LimitOutcome() == old(g.LimitOutcome()) &&
                numberOfCoins == IntSucc(old(numberOfCoins)) && world.OnlyFieldChanged(x, y) &&
                FieldCoins(world.fields[y, x]) == old(FieldCoins(world.fields[y, x])) - 1
      ensures !old(IsOnACoin()) ==>
                o.Fail? && numberOfCoins == old(numberOfCoins) && world.FieldsUnchanged() &&
                MyTrace().transitions ==
                  old(MyTrace().transitions) + [Transition(old(counter.nextStep), RobotAction.TurnOff, old(Copy()))] &&
                (o == Fail(RobotCrashed) <==> g.LimitOutcome().Pass?) &&
                off == (o == Fail(RobotCrashed))
    {
      ghost var limit := g.LimitOutcome();
      var picked := TryTake();
      if picked {
        o := Pass;
        assert g.LimitOutcome() == limit;
      } else {
        o := Crash(counter, g);
      }
    }

    /** world.pickCoin on the robot's field, and one more coin for the robot when it succeeded. */
    method TryTake() returns (picked: bool)
      requires Valid()
      modifies this, world.fields
      ensures Valid()
      ensures picked == old(IsOnACoin())
      ensures x == old(x) && y == old(y) && direction == old(direction) && id == old(id) && imageId == old(imageId)
      ensures off == old(off)
      ensures picked ==>
                numberOfCoins == IntSucc(old(numberOfCoins)) && world.OnlyFieldChanged(x, y) &&
                FieldCoins(world.fields[y, x]) == old(FieldCoins(world.fields[y, x])) - 1
      ensures !picked ==> numberOfCoins == old(numberOfCoins) && world.FieldsUnchanged()
    {
      picked := world.PickCoin(x, y);
      if picked {
        numberOfCoins := IntSucc(numberOfCoins);
      }
    }

    /** setNumberOfCoins: traced; the count is set only once the trace did not throw, even on a turned-off robot. */
    method SetNumberOfCoins(coins: int, counter: StepCounter, g: GlobalWorld) returns (o: Outcome<Failure>)
      requires Valid() && Ready(counter, g) && IsInt(coins)
      modifies this, MyTrace(), counter
      ensures Valid() && Ready(counter, g)
      ensures MyTrace().transitions ==
                old(MyTrace().transitions) + [Transition(old(counter.nextStep), RobotAction.SetNumberOfCoins, old(Copy()))]
      ensures o == g.LimitOutcome()
      ensures numberOfCoins == if o.Pass? then coins else old(numberOfCoins)
      ensures x == old(x) && y == old(y) && direction == old(direction) && off == old(off) && id == old(id)
      ensures imageId == old(imageId)
    {
      o := world.Trace(this, RobotAction.SetNumberOfCoins, counter, g);
      if o.Fail? {
        return;
      }
      numberOfCoins := coins;
    }

    /** setX: traced, then setXRobot. */
    method SetX(nx: int, counter: StepCounter, g: GlobalWorld) returns (o: Outcome<Failure>)
      requires Valid() && Ready(counter, g)
      modifies this, world.fields, MyTrace(), counter
      ensures Valid() && Ready(counter, g)
      ensures MyTrace().transitions ==
                old(MyTrace().transitions) + [Transition(old(counter.nextStep), RobotAction.SetX, old(Copy()))]
      ensures o.Fail? <==> g.LimitOutcome().Fail? || world.CheckXCoordinate(nx).Fail?
      ensures y == old(y) && direction == old(direction) && numberOfCoins == old(numberOfCoins)
      ensures off == old(off) && id == old(id) && imageId == old(imageId)
      ensures if o.Fail? || old(off) then x == old(x) && world.FieldsUnchanged()
              else x == nx && world.RobotRelocated(this, old(x), old(y), x, y)
    {
      o := world.Trace(this, RobotAction.SetX, counter, g);
      if o.Fail? {
        return;
      }
      o := SetXRobot(nx);
    }

    /** setY: traced, then setYRobot. */
    method SetY(ny: int, counter: StepCounter, g: GlobalWorld) returns (o: Outcome<Failure>)
      requires Valid() && Ready(counter, g)
      modifies this, world.fields, MyTrace(), counter
      ensures Valid() && Ready(counter, g)
      ensures MyTrace().transitions ==
                old(MyTrace().transitions) + [Transition(old(counter.nextStep), RobotAction.SetY, old(Copy()))]
      ensures o.Fail? <==> g.LimitOutcome().Fail? || world.CheckYCoordinate(ny).Fail?
      ensures x == old(x) && direction == old(direction) && numberOfCoins == old(numberOfCoins)
      ensures off == old(off) && id == old(id) && imageId == old(imageId)
      ensures if o.Fail? || old(off) then y == old(y) && world.FieldsUnchanged()
              else y == ny && world.RobotRelocated(this, old(x), old(y), x, y)
    {
      o := world.Trace(this, RobotAction.SetY, counter, g);
      if o.Fail? {
        return;
      }
      o := SetYRobot(ny);
    }

    /** setField: traced as SET_X and then SET_Y, validates both coordinates, then moves a running robot in one step. */
    method SetField(nx: int, ny: int, counter: StepCounter, g: GlobalWorld) returns (o: Outcome<Failure>)
      requires Valid() && Ready(counter, g)
      modifies this, world.fields, MyTrace(), counter
      ensures Valid() && Ready(counter, g)
      ensures var t1 := Transition(old(counter.nextStep), RobotAction.SetX, old(Copy()));
              var t2 := Transition(IntSucc(old(counter.nextStep)), RobotAction.SetY, old(Copy()));
              (MyTrace().transitions == old(MyTrace().transitions) + [t1] ||
               MyTrace().transitions == old(MyTrace().transitions) + [t1] + [t2]) &&
              (g.LimitOutcome().Pass? ==> MyTrace().transitions == old(MyTrace().transitions) + [t1] + [t2])
      ensures o.Pass? <==> g.LimitOutcome().Pass? && world.InBounds(nx, ny)
      ensures direction == old(direction) && numberOfCoins == old(numberOfCoins)
      ensures off == old(off) && id == old(id) && imageId == old(imageId)
      ensures if o.Fail? || old(off) then x == old(x) && y == old(y) && world.FieldsUnchanged()
              else x == nx && y == ny && world.RobotRelocated(this, old(x), old(y), x, y)
    {
      o := world.Trace(this, RobotAction.SetX, counter, g);
      if o.Fail? {
        return;
      }
      o := SetFieldAfterFirstTrace(nx, ny, counter, g);
    }

    /** The part of setField after its SET_X trace did not throw. */
    method SetFieldAfterFirstTrace(nx: int, ny: int, counter: StepCounter, g: GlobalWorld) returns (o: Outcome<Failure>)
      requires Valid() && Ready(counter, g)
      modifies this, world.fields, MyTrace(), counter
      ensures Valid() && Ready(counter, g)
      ensures MyTrace().transitions ==
                old(MyTrace().transitions) + [Transition(old(counter.nextStep), RobotAction.SetY, old(Copy()))]
      ensures o.Pass? <==> g.LimitOutcome().Pass? && world.InBounds(nx, ny)
      ensures direction == old(direction) && numberOfCoins == old(numberOfCoins)
      ensures off == old(off) && id == old(id) && imageId == old(imageId)
      ensures if o.Fail? || old(off) then x == old(x) && y == old(y) && world.FieldsUnchanged()
              else x == nx && y == ny && world.RobotRelocated(this, old(x), old(y), x, y)
    {
      o := world.Trace(this, RobotAction.SetY, counter, g);
      if o.Fail? {
        return;
      }
      ghost var limit := g.LimitOutcome();
      o := MoveToField(nx, ny);
      assert g.LimitOutcome() == limit;
    }

    /** The part of setField after the traces: both coordinates are validated before the off check. */
    method MoveToField(nx: int, ny: int) returns (o: Outcome<Failure>)
      requires Valid()
      modifies this, world.fields
      ensures Valid()
      ensures o.Pass? <==> world.InBounds(nx, ny)
      ensures o.Fail? ==> o == if world.CheckXCoordinate(nx).Fail? then world.CheckXCoordinate(nx)
                               else world.CheckYCoordinate(ny)
      ensures direction == old(direction) && numberOfCoins == old(numberOfCoins)
      ensures off == old(off) && id == old(id) && imageId == old(imageId)
      ensures if o.Fail? || old(off) then x == old(x) && y == old(y) && world.FieldsUnchanged()
              else x == nx && y == ny && world.RobotRelocated(this, old(x), old(y), x, y)
    {
      o := world.CheckXCoordinate(nx);
      if o.Fail? {
        return;
      }
      o := world.CheckYCoordinate(ny);
      if o.Fail? || off {
        return;
      }
      PlaceAt(nx, ny);
    }

    /** A running robot takes a validated position and the world moves its entity there. */
    method PlaceAt(nx: int, ny: int)
      requires Valid() && world.InBounds(nx, ny)
      modifies this, world.fields
      ensures Valid()
      ensures direction == old(direction) && numberOfCoins == old(numberOfCoins)
      ensures off == old(off) && id == old(id) && imageId == old(imageId)
      ensures x == nx && y == ny && world.RobotRelocated(this, old(x), old(y), x, y)
    {
      var oldX, oldY := x, y;
      SetPosition(nx, ny);
      world.UpdateRobotField(this, oldX, oldY);
    }

    /** super.setX and super.setY: the position alone changes. */
    method SetPosition(nx: int, ny: int)
      modifies this
      ensures x == nx && y == ny
      ensures direction == old(direction) && numberOfCoins == old(numberOfCoins)
      ensures off == old(off) && id == old(id) && imageId == old(imageId)
    {
      x, y := nx, ny;
    }
  }

  /** The static World: the global world, created lazily. */
  class GlobalWorld {
    var world: KarelWorld?
    var global: bool

    constructor ()
      ensures world == null && !global
    {
      world := null;
      global := false;
    }

    ghost predicate Valid()
      reads this, world, if world != null then {world.fields} else {}
    {
      (global <==> world != null) && (world != null ==> world.Valid())
    }

    /** What the action-limit check needs of the global world. */
    ghost predicate TracesReady()
      reads this, world
    {
      world != null ==> world.TracesValid()
    }

    ghost function LimitFootprint(): set<object>
      reads this, world
    {
      if world == null then {} else {world} + world.traces.Values
    }

    /** `World.getGlobalWorld().checkActionLimit()`: a missing global world is a null dereference. */
    function LimitOutcome(): (o: Outcome<Failure>)
      requires TracesReady()
      reads this, world, LimitFootprint()
      ensures world == null ==> o == Fail(NullGlobalWorld)
      ensures world != null ==> o == world.CheckActionLimit()
    {
      if world == null then Fail(NullGlobalWorld) else world.CheckActionLimit()
    }

    method CheckActionLimit() returns (o: Outcome<Failure>)
      requires TracesReady()
      ensures o == LimitOutcome()
    {
      if world == null {
        return Fail(NullGlobalWorld);
      }
      return world.CheckActionLimit();
    }

    /** isGlobal: whether a global world was created. */
    function IsGlobal(): (b: bool)
      requires Valid()
      reads this, world, if world != null then {world.fields} else {}
      ensures b <==> world != null
    {
      global
    }

    /** getGlobalWorld: the world, null before the first one is created. */
    function GetGlobalWorld(): (w: KarelWorld?)
      reads this
      ensures w == world
    {
      world
    }

    /** setSize: replaces the world by a fresh, empty one of the given size, keeping the old world's delay. */
    method SetSize(width: int, height: int) returns (o: Outcome<Failure>)
      requires Valid()
      modifies this
      ensures Valid()
      ensures o.Fail? <==> width < 1 || height < 1
      ensures o.Fail? ==> o == Fail(InvalidWorldSize) && world == old(world) && global == old(global)
      ensures o.Pass? ==> world != null && fresh(world) && fresh(world.fields) && global &&
                          world.width == width && world.height == height && world.robotCount == 0 &&
                          world.traces == map[] && world.actionLimit == -1 &&
                          (forall y, x :: 0 <= y < height && 0 <= x < width ==> world.fields[y, x] == []) &&
                          world.delay == (if old(world) != null then old(world.delay) else 100)
    {
      var r := KarelWorld.Create(width, height);
      if r.Err? {
        return Fail(r.error);
      }
      var w := r.value;
      if world != null {
        w.SetDelay(world.delay);
      }
      world := w;
      global := true;
      return Pass;
    }

    /** The accessors create a 10 x 10 world when there is none yet. */
    method EnsureWorld()
      requires Valid()
      modifies this
      ensures Valid() && world != null
      ensures old(world) != null ==> world == old(world) && global == old(global)
      ensures old(world) == null ==> fresh(world) && fresh(world.fields) && world.width == 10 &&
                                     world.height == 10 && world.delay == 100 && world.robotCount == 0 &&
                                     forall y, x :: 0 <= y < 10 && 0 <= x < 10 ==> world.fields[y, x] == []
    {
      if world == null {
        var o := SetSize(10, 10);
      }
    }

    /** setVisible: setVisible(true) creates the missing world; setVisible(false) without a world dereferences null. */
    method SetVisible(visible: bool) returns (o: Outcome<Failure>)
      requires Valid()
      modifies this
      ensures Valid()
      ensures o.Fail? <==> !visible && old(world) == null
      ensures o.Fail? ==> o == Fail(NullGlobalWorld) && world == null
      ensures visible ==> world != null && (old(world) != null ==> world == old(world))
      ensures !visible ==> world == old(world)
    {
      if visible && world == null {
        o := SetSize(10, 10);
      }
      if world == null {
        return Fail(NullGlobalWorld);
      }
      return Pass;
    }

    method GetWidth() returns (w: int)
      requires Valid()
      modifies this
      ensures Valid() && world != null && w == world.width
      ensures old(world) != null ==> world == old(world)
      ensures old(world) == null ==> fresh(world) && w == 10
    {
      EnsureWorld();
      return world.width;
    }

    method GetHeight() returns (h: int)
      requires Valid()
      modifies this
      ensures Valid() && world != null && h == world.height
      ensures old(world) != null ==> world == old(world)
      ensures old(world) == null ==> fresh(world) && h == 10
    {
      EnsureWorld();
      return world.height;
    }

    method SetDelay(d: int)
      requires Valid()
      modifies this, world
      ensures Valid() && world != null && world.delay == d
      ensures old(world) != null ==> world == old(world)
      ensures old(world) == null ==> fresh(world)
    {
      EnsureWorld();
      world.SetDelay(d);
    }

    method GetDelay() returns (d: int)
      requires Valid()
      modifies this
      ensures Valid() && world != null && d == world.delay
      ensures old(world) != null ==> world == old(world)
      ensures old(world) == null ==> fresh(world) && d == 100
    {
      EnsureWorld();
      return world.delay;
    }

    method Reset()
      requires Valid()
      modifies this, if world != null then {world.fields} else {}
      ensures Valid() && world != null
      ensures old(world) != null ==> world == old(world)
      ensures forall y, x :: 0 <= y < world.height && 0 <= x < world.width ==> world.fields[y, x] == []
    {
      EnsureWorld();
      world.Reset();
    }

    /**
     * What field (x, y) held before the call: the old world's field, or nothing in the world the
     * call created.
     */
    twostate function Before(x: int, y: int): seq<Entity>
      requires world != null && world.Valid() && world.InBounds(x, y)
      requires old(world) != null ==> world == old(world)
      reads this, world, world.fields
    {
      if old(world) != null then old(world.fields[y, x]) else []
    }

    /**
     * The world is the old one, or a fresh 10 x 10 world when there was none, and every field
     * other than (x, y) holds what it held before; when `all`, field (x, y) does too.
     */
    twostate predicate OthersAsBefore(x: int, y: int, all: bool)
      reads this, world, if world != null then {world.fields} else {}
    {
      world != null && world.Valid() &&
      (old(world) != null ==> world == old(world)) &&
      (old(world) == null ==> fresh(world) && world.width == 10 && world.height == 10) &&
      forall i, j {:trigger world.fields[j, i]} :: world.InBounds(i, j) && (all || i != x || j != y) ==>
        world.fields[j, i] == Before(i, j)
    }

    /** The checks of placeWall and its kin on the global world, in Java order. */
    predicate PositionChecked(x: int, y: int, o: Outcome<Failure>)
      reads this, world
    {
      world != null &&
      (!(0 <= x < world.width) ==> o == Fail(InvalidX)) &&
      (0 <= x < world.width && !(0 <= y < world.height) ==> o == Fail(InvalidY))
    }

    /** placeHorizontalWall on the world, created first when missing. */
    method PlaceHorizontalWall(x: int, y: int) returns (o: Outcome<Failure>)
      requires Valid()
      modifies this, if world != null then {world.fields} else {}
      ensures Valid() && OthersAsBefore(x, y, o.Fail?)
      ensures o.Fail? <==> !world.InBounds(x, y)
      ensures PositionChecked(x, y, o)
      ensures o.Pass? ==> world.fields[y, x] == WithWall(Before(x, y), true) && world.IsWallInField(x, y, true)
    {
      EnsureWorld();
      o := world.PlaceHorizontalWall(x, y);
    }

    /** placeVerticalWall on the world, created first when missing. */
    method PlaceVerticalWall(x: int, y: int) returns (o: Outcome<Failure>)
      requires Valid()
      modifies this, if world != null then {world.fields} else {}
      ensures Valid() && OthersAsBefore(x, y, o.Fail?)
      ensures o.Fail? <==> !world.InBounds(x, y)
      ensures PositionChecked(x, y, o)
      ensures o.Pass? ==> world.fields[y, x] == WithWall(Before(x, y), false) && world.IsWallInField(x, y, false)
    {
      EnsureWorld();
      o := world.PlaceVerticalWall(x, y);
    }

    /** placeBlock on the world, created first when missing. */
    method PlaceBlock(x: int, y: int) returns (o: Outcome<Failure>)
      requires Valid()
      modifies this, if world != null then {world.fields} else {}
      ensures Valid() && OthersAsBefore(x, y, o.Fail?)
      ensures o.Fail? <==> !world.InBounds(x, y)
      ensures PositionChecked(x, y, o)
      ensures o.Pass? ==> world.fields[y, x] == WithBlock(Before(x, y)) && world.IsBlockInField(x, y)
    {
      EnsureWorld();
      o := world.PlaceBlock(x, y);
    }

    /** putCoins on the world, created first when missing. */
    method PutCoins(x: int, y: int, n: int) returns (o: Outcome<Failure>)
      requires Valid()
      modifies this, if world != null then {world.fields} else {}
      ensures Valid() && OthersAsBefore(x, y, o.Fail?)
      ensures o.Fail? <==> !world.InBounds(x, y) || n < 1
      ensures PositionChecked(x, y, o)
      ensures world.InBounds(x, y) && n < 0 ==> o == Fail(NegativeCoinCount)
      ensures world.InBounds(x, y) && n == 0 ==> o == Fail(CoinCountBelowOne)
      ensures o.Pass? ==> FieldCoins(world.fields[y, x]) == FieldCoins(Before(x, y)) + n
      ensures o.Pass? ==>
                var cell := Before(x, y);
                world.fields[y, x] == match FirstCoin(cell)
                  case Some(k) => cell[k := CoinEntity(cell[k].count + n)]
                  case None => cell + [CoinEntity(n)]
    {
      if world == null {
        EnsureWorld();
        if world.InBounds(x, y) {
          assert world.fields[y, x] == [] == Before(x, y);
        }
      }
      o := world.PutCoins(x, y, n);
    }
  }
}
