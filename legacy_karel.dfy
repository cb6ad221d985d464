/**
 * The older FOPBot world of src/fopbot: a KarelWorld whose fields are stored
 * column-major as `entities[x, y]`, and the Robot that moves over it without traces.
 *
 * The coordinate checks of this world consult the size of the static global World,
 * which is passed to them as a GlobalSize. A position that passes those checks but
 * lies outside this world's own arrays fails with IndexOutOfBounds, as the array
 * access does. Every update of the world saves a snapshot of all its entities.
 */
module LegacyKarel {
  import opened Outcomes
  import opened Directions
  import opened JavaText
  import opened FieldEntities
  import opened Lists

  /** The exceptions the older world throws. */
  datatype Failure =
    | InvalidWorldSize     // RuntimeException "Invalid world size"
    | InvalidX             // RuntimeException "Invalid x-coordinate"
    | InvalidY             // RuntimeException "Invalid y-coordinate"
    | NegativeCoinCount    // "Number of coins must be greater than -1!"
    | CoinCountBelowOne    // "Number of coins must be greater than 0!"
    | RobotCrashed         // RuntimeException "Robot crashed!"
    | IndexOutOfBounds    // ArrayIndexOutOfBoundsException

  /** The size of the static global World, against which coordinates are validated. */
  datatype GlobalSize = GlobalSize(width: int, height: int)

  /** checkXCoordinate: throws exactly for an x outside 0 .. global width - 1. */
  function CheckXCoordinate(x: int, global: GlobalSize): (o: Outcome<Failure>)
    ensures o.Fail? <==> !(0 <= x < global.width)
    ensures o.Fail? ==> o.error == InvalidX
  {
    if x > global.width - 1 || x < 0 then Fail(InvalidX) else Pass
  }

  /** checkYCoordinate: throws exactly for a y outside 0 .. global height - 1. */
  function CheckYCoordinate(y: int, global: GlobalSize): (o: Outcome<Failure>)
    ensures o.Fail? <==> !(0 <= y < global.height)
    ensures o.Fail? ==> o.error == InvalidY
  {
    if y > global.height - 1 || y < 0 then Fail(InvalidY) else Pass
  }

  /** checkNumberOfCoins: throws exactly for a negative count. */
  function CheckNumberOfCoins(n: int): (o: Outcome<Failure>)
    ensures o.Fail? <==> n < 0
    ensures o.Fail? ==> o.error == NegativeCoinCount
  {
    if n < 0 then Fail(NegativeCoinCount) else Pass
  }

  /** The content of one field after updateRobotField took a robot out of `from` and added it to `to`. */
  function RelocateFirst(cell: seq<Entity>, r: object, from: bool, to: bool): seq<Entity>
  {
    var rest := if from then RemoveFirst(cell, RobotEntity(r)) else cell;
    if to then rest + [RobotEntity(r)] else rest
  }

  /** Taking a robot out of a field and adding it to a field keeps both well formed and the robot single in the old one. */
  lemma RelocateFirstKeepsFieldValid(cell: seq<Entity>, r: object, from: bool, to: bool)
    requires FieldValid(cell)
    ensures FieldValid(RelocateFirst(cell, r, from, to))
  {
    var rest := if from then RemoveFirst(cell, RobotEntity(r)) else cell;
    if from && RobotEntity(r) in cell {
      RemovedKeepsFieldValid(cell, IndexOf(cell, RobotEntity(r)).value);
    }
    if to {
      RelocateKeepsFieldValid(rest, r, false, true);
    }
  }

  /** Two states appended one after the other leave the earlier states in front. */
  lemma TwoAppendsKeepPrefix<T>(states: seq<T>, first: T, second: T)
    ensures var grown := states + [first] + [second];
            |grown| == |states| + 2 && grown[..|states|] == states && grown[|grown| - 1] == second
  {
    assert (states + [first] + [second])[..|states|] == states;
  }

  /** An entity of getAllFieldEntities, together with the field it lies in. */
  datatype Placed = Placed(entity: Entity, x: int, y: int)

  /** One entry of a saved entity state: a detached copy of one field entity. */
  datatype EntityCopy =
    | RobotCopy(x: int, y: int, direction: Direction, numberOfCoins: int)
    | CoinCopy(x: int, y: int, count: int)
    | BlockCopy(x: int, y: int)
    | WallCopy(x: int, y: int, horizontal: bool)

  /** The entities of one field, each tagged with the field. */
  function Placements(cell: seq<Entity>, x: int, y: int): (ps: seq<Placed>)
    ensures |ps| == |cell|
    ensures forall i :: 0 <= i < |cell| ==> ps[i] == Placed(cell[i], x, y)
  {
    if cell == [] then [] else [Placed(cell[0], x, y)] + Placements(cell[1..], x, y)
  }

  /** The robots among some placed entities: the objects saveEntityState reads. */
  function RobotObjects(ps: seq<Placed>): set<object>
  {
    set i | 0 <= i < |ps| && ps[i].entity.RobotEntity? && ps[i].entity.robot is Robot :: ps[i].entity.robot
  }

  /**
   * The copy saveEntityState adds for one entity: a robot copies its own position, direction
   * and coins, the other entities their field and content. An entity of any other class gets none.
   */
  function CopyOf(p: Placed): (c: seq<EntityCopy>)
    reads if p.entity.RobotEntity? && p.entity.robot is Robot then {p.entity.robot} else {}
    ensures |c| <= 1
    ensures |c| == 1 <==> !p.entity.RobotEntity? || p.entity.robot is Robot
  {
    match p.entity
    case RobotEntity(o) =>
      if o is Robot then
        var r := o as Robot;
        [RobotCopy(r.x, r.y, r.direction, r.numberOfCoins)]
      else []
    case CoinEntity(n) => [CoinCopy(p.x, p.y, n)]
    case BlockEntity => [BlockCopy(p.x, p.y)]
    case WallEntity(h) => [WallCopy(p.x, p.y, h)]
  }

  /** The copies of a list of entities, in list order. */
  function Copies(ps: seq<Placed>): seq<EntityCopy>
    reads RobotObjects(ps)
  {
    if ps == [] then []
    else
      assert RobotObjects(ps[..|ps| - 1]) <= RobotObjects(ps) by {
        forall o | o in RobotObjects(ps[..|ps| - 1]) ensures o in RobotObjects(ps) {
          var i :| 0 <= i < |ps| - 1 && ps[..|ps| - 1][i].entity.RobotEntity? && ps[..|ps| - 1][i].entity.robot is Robot &&
                   ps[..|ps| - 1][i].entity.robot == o;
          assert ps[i] == ps[..|ps| - 1][i];
        }
      }
      Copies(ps[..|ps| - 1]) + CopyOf(ps[|ps| - 1])
  }

  /** The copy loop of saveEntityState: one instanceof test and copy per entity, in list order. */
  method CopyAll(all: seq<Placed>) returns (copies: seq<EntityCopy>)
    ensures copies == Copies(all)
  {
    copies := [];
    var k := 0;
    while k < |all|
      invariant 0 <= k <= |all|
      invariant copies == Copies(all[..k])
    {
      assert all[..k + 1][..k] == all[..k];
      copies := copies + CopyOf(all[k]);
      k := k + 1;
    }
    assert all[..|all|] == all;
  }

  /** Every entity is a coin, block, wall or robot of this class. */
  ghost predicate KnownKinds(ps: seq<Placed>)
  {
    forall i :: 0 <= i < |ps| && ps[i].entity.RobotEntity? ==> ps[i].entity.robot is Robot
  }

  /** A snapshot holds one copy per entity, in the order of the entities. */
  lemma {:induction false} CopiesOnePerEntity(ps: seq<Placed>)
    requires KnownKinds(ps)
    ensures |Copies(ps)| == |ps|
    ensures forall i :: 0 <= i < |ps| ==> [Copies(ps)[i]] == CopyOf(ps[i])
    decreases |ps|
  {
    if ps != [] {
      var init := ps[..|ps| - 1];
      assert KnownKinds(init) by {
        forall i | 0 <= i < |init| && init[i].entity.RobotEntity? ensures init[i].entity.robot is Robot {
          assert init[i] == ps[i];
        }
      }
      CopiesOnePerEntity(init);
      forall i | 0 <= i < |ps| ensures [Copies(ps)[i]] == CopyOf(ps[i]) {
        if i < |init| { assert ps[i] == init[i]; }
      }
    }
  }

  class KarelWorld {
    const width: int
    const height: int
    /** The fields, column-major: entities[x, y]. */
    const entities: array2<seq<Entity>>
    var robotCount: nat
    var delay: int
    /** The saved entity states, one per update, oldest first. */
    var entityStates: seq<seq<EntityCopy>>

    ghost predicate Valid()
      reads entities
    {
      1 <= width && 1 <= height && entities.Length0 == width && entities.Length1 == height &&
      forall x, y :: 0 <= x < width && 0 <= y < height ==> FieldValid(entities[x, y])
    }

    /** The positions the arrays hold; in a well-formed world the same as InBounds. */
    predicate InArrays(x: int, y: int)
    {
      0 <= x < entities.Length0 && 0 <= y < entities.Length1
    }

    /** The positions this world's own arrays hold. */
    predicate InBounds(x: int, y: int)
    {
      0 <= x < width && 0 <= y < height
    }

    constructor (width: int, height: int)
      requires 1 <= width && 1 <= height
      ensures Valid() && fresh(entities)
      ensures this.width == width && this.height == height
      ensures forall x, y :: 0 <= x < width && 0 <= y < height ==> entities[x, y] == []
      ensures robotCount == 0 && delay == 100 && entityStates == []
    {
      this.width := width;
      this.height := height;
      var a := new seq<Entity>[width, height];
      var i := 0;
      while i < width
        invariant 0 <= i <= width
        invariant forall x, y :: 0 <= x < i && 0 <= y < height ==> a[x, y] == []
      {
        var j := 0;
        while j < height
          invariant 0 <= j <= height
          invariant forall x, y :: 0 <= x < i && 0 <= y < height ==> a[x, y] == []
          invariant forall y :: 0 <= y < j ==> a[i, y] == []
        {
          a[i, j] := [];
          j := j + 1;
        }
        i := i + 1;
      }
      entities := a;
      robotCount := 0;
      delay := 100;
      entityStates := [];
    }

    /** `new KarelWorld(width, height)`: a world of at least one field, or the size error. */
    static method Create(width: int, height: int) returns (r: Result<KarelWorld, Failure>)
      ensures r.Err? <==> width < 1 || height < 1
      ensures r.Err? ==> r.error == InvalidWorldSize
      ensures r.Ok? ==> fresh(r.value) && fresh(r.value.entities) && r.value.Valid() &&
                        r.value.width == width && r.value.height == height &&
                        r.value.robotCount == 0 && r.value.delay == 100 && r.value.entityStates == [] &&
                        forall x, y :: 0 <= x < width && 0 <= y < height ==> r.value.entities[x, y] == []
    {
      if width < 1 || height < 1 {
        return Err(InvalidWorldSize);
      }
      var w := new KarelWorld(width, height);
      return Ok(w);
    }

    method SetDelay(d: int)
      modifies this
      ensures delay == d
      ensures robotCount == old(robotCount) && entityStates == old(entityStates)
    {
      delay := d;
    }

    /** isBlockInField: the field holds a block, and then exactly one. */
    predicate IsBlockInField(x: int, y: int)
      requires Valid() && InBounds(x, y)
      reads entities
      ensures IsBlockInField(x, y) <==> BlockEntity in entities[x, y]
      ensures IsBlockInField(x, y) <==> Count(entities[x, y], IsBlock) == 1
    {
      CountPositiveIffHas(entities[x, y], IsBlock);
      Has(entities[x, y], IsBlock)
    }

    /** isWallInField: the field holds a wall of the given orientation. */
    predicate IsWallInField(x: int, y: int, horizontal: bool)
      requires Valid() && InBounds(x, y)
      reads entities
      ensures IsWallInField(x, y, horizontal) <==> WallEntity(horizontal) in entities[x, y]
    {
      Has(entities[x, y], e => IsWall(e, horizontal))
    }

    /** isCoinInField: the field holds a coin entity, so exactly when at least one coin lies there. */
    predicate IsCoinInField(x: int, y: int)
      requires Valid() && InBounds(x, y)
      reads entities
      ensures IsCoinInField(x, y) <==> FieldCoins(entities[x, y]) >= 1
      ensures !IsCoinInField(x, y) ==> FieldCoins(entities[x, y]) == 0
      ensures IsCoinInField(x, y) <==> Count(entities[x, y], IsCoin) == 1
    {
      CountPositiveIffHas(entities[x, y], IsCoin);
      Has(entities[x, y], IsCoin)
    }

    /** isAnotherRobotInField: some entity of the field is a robot other than r. */
    predicate IsAnotherRobotInField(x: int, y: int, r: object)
      requires Valid() && InBounds(x, y)
      reads entities
      ensures IsAnotherRobotInField(x, y, r) <==> exists e :: e in entities[x, y] && e.RobotEntity? && e.robot != r
    {
      Has(entities[x, y], (e: Entity) => e.RobotEntity? && e.robot != r)
    }

    /** A wall lies between two neighbouring fields: a horizontal wall on the north side of (x, y), a vertical one on its east side. */
    predicate WallBetween(x1: int, y1: int, x2: int, y2: int)
      requires Valid() && InBounds(x1, y1) && InBounds(x2, y2)
      reads entities
    {
      if x1 == x2 && y2 == y1 + 1 then IsWallInField(x1, y1, true)
      else if x1 == x2 && y2 == y1 - 1 then IsWallInField(x2, y2, true)
      else if y1 == y2 && x2 == x1 + 1 then IsWallInField(x1, y1, false)
      else if y1 == y2 && x2 == x1 - 1 then IsWallInField(x2, y2, false)
      else false
    }

    /**
     * isFrontClear, for a robot at (x, y) facing d. It inspects the field ahead, and for UP and
     * RIGHT the robot's own field, so a robot standing outside the arrays can make it throw.
     */
    function FrontClearAt(x: int, y: int, d: Direction): (r: Result<bool, Failure>)
      requires Valid()
      reads entities
      ensures r.Err? ==> r.error == IndexOutOfBounds
      ensures r == Ok(true) ==> InBounds(x + Dx(d), y + Dy(d))
      ensures InBounds(x, y) ==>
                r.Ok? &&
                (r.value <==> InBounds(x + Dx(d), y + Dy(d)) &&
                              !IsBlockInField(x + Dx(d), y + Dy(d)) &&
                              !WallBetween(x, y, x + Dx(d), y + Dy(d)))
    {
      match d
      case Up =>
        if y == height - 1 then Ok(false)
        else if !InBounds(x, y + 1) then Err(IndexOutOfBounds)
        else if IsBlockInField(x, y + 1) then Ok(false)
        else if !InBounds(x, y) then Err(IndexOutOfBounds)
        else Ok(!IsWallInField(x, y, true))
      case Left =>
        if x == 0 then Ok(false)
        else if !InBounds(x - 1, y) then Err(IndexOutOfBounds)
        else if IsBlockInField(x - 1, y) then Ok(false)
        else Ok(!IsWallInField(x - 1, y, false))
      case Down =>
        if y == 0 then Ok(false)
        else if !InBounds(x, y - 1) then Err(IndexOutOfBounds)
        else if IsBlockInField(x, y - 1) then Ok(false)
        else Ok(!IsWallInField(x, y - 1, true))
      case Right =>
        if x == width - 1 then Ok(false)
        else if !InBounds(x + 1, y) then Err(IndexOutOfBounds)
        else if IsBlockInField(x + 1, y) then Ok(false)
        else if !InBounds(x, y) then Err(IndexOutOfBounds)
        else Ok(!IsWallInField(x, y, false))
    }

    /** A horizontal wall at (x, y) stops UP from (x, y) and DOWN from (x, y + 1). */
    lemma HorizontalWallBlocks(x: int, y: int)
      requires Valid() && InBounds(x, y) && IsWallInField(x, y, true)
      ensures FrontClearAt(x, y, Up) == Ok(false)
      ensures InBounds(x, y + 1) ==> FrontClearAt(x, y + 1, Down) == Ok(false)
    {
    }

    /** A vertical wall at (x, y) stops RIGHT from (x, y) and LEFT from (x + 1, y). */
    lemma VerticalWallBlocks(x: int, y: int)
      requires Valid() && InBounds(x, y) && IsWallInField(x, y, false)
      ensures FrontClearAt(x, y, Right) == Ok(false)
      ensures InBounds(x + 1, y) ==> FrontClearAt(x + 1, y, Left) == Ok(false)
    {
    }

    /** The entities of fields (i, 0) .. (i, n - 1), in that order. */
    function ColumnEntities(i: int, n: nat): seq<Placed>
      requires 0 <= i < entities.Length0 && n <= entities.Length1
      reads entities
    {
      if n == 0 then [] else ColumnEntities(i, n - 1) + Placements(entities[i, n - 1], i, n - 1)
    }

    /** The entities of columns 0 .. m - 1, column by column. */
    function EntitiesBelow(m: nat): seq<Placed>
      requires m <= entities.Length0
      reads entities
    {
      if m == 0 then [] else EntitiesBelow(m - 1) + ColumnEntities(m - 1, entities.Length1)
    }

    /** getAllFieldEntities: the entities of every field, x outer and y inner. */
    function AllFieldEntities(): seq<Placed>
      requires Valid()
      reads entities
    {
      EntitiesBelow(width)
    }

    /** The entity state saveEntityState records: a copy of every entity of the world. */
    function Snapshot(): seq<EntityCopy>
      requires Valid()
      reads entities, RobotObjects(AllFieldEntities())
    {
      Copies(AllFieldEntities())
    }

    /** The snapshot copies the listed entities one by one, in order, when every robot entry is a robot. */
    lemma SnapshotOnePerEntity()
      requires Valid() && KnownKinds(AllFieldEntities())
      ensures |Snapshot()| == |AllFieldEntities()|
      ensures forall i :: 0 <= i < |Snapshot()| ==> [Snapshot()[i]] == CopyOf(AllFieldEntities()[i])
    {
      CopiesOnePerEntity(AllFieldEntities());
    }

    lemma {:induction false} ColumnEntitiesExact(i: int, n: nat, p: Placed)
      requires 0 <= i < entities.Length0 && n <= entities.Length1
      ensures p in ColumnEntities(i, n) <==> p.x == i && 0 <= p.y < n && p.entity in entities[i, p.y]
      decreases n
    {
      if n > 0 {
        ColumnEntitiesExact(i, n - 1, p);
        var cell := Placements(entities[i, n - 1], i, n - 1);
        if p.x == i && p.y == n - 1 && p.entity in entities[i, p.y] {
          var k :| 0 <= k < |entities[i, p.y]| && entities[i, p.y][k] == p.entity;
          assert cell[k] == p;
        }
      }
    }

    lemma {:induction false} EntitiesBelowExact(m: nat, p: Placed)
      requires m <= entities.Length0
      ensures p in EntitiesBelow(m) <==>
                0 <= p.x < m && 0 <= p.y < entities.Length1 && p.entity in entities[p.x, p.y]
      decreases m
    {
      if m > 0 {
        EntitiesBelowExact(m - 1, p);
        ColumnEntitiesExact(m - 1, entities.Length1, p);
        var below, column := EntitiesBelow(m - 1), ColumnEntities(m - 1, entities.Length1);
        assert EntitiesBelow(m) == below + column;
        assert p in below + column <==> p in below || p in column;
      }
    }

    /** getAllFieldEntities lists exactly the entities lying in the fields, each with its field. */
    lemma AllFieldEntitiesExact(p: Placed)
      requires Valid()
      ensures p in AllFieldEntities() <==> InBounds(p.x, p.y) && p.entity in entities[p.x, p.y]
    {
      EntitiesBelowExact(width, p);
    }

    /** getAllFieldEntities, by its nested loops over the columns and rows. */
    method GetAllFieldEntities() returns (all: seq<Placed>)
      requires Valid()
      ensures all == AllFieldEntities()
    {
      all := [];
      var i := 0;
      while i < width
        invariant 0 <= i <= width
        invariant all == EntitiesBelow(i)
      {
        var j := 0;
        while j < height
          invariant 0 <= j <= height
          invariant all == EntitiesBelow(i) + ColumnEntities(i, j)
        {
          var field := entities[i, j];
          if |field| > 0 {
            all := all + Placements(field, i, j);
          }
          j := j + 1;
        }
        i := i + 1;
      }
    }

    /** saveEntityState: appends one snapshot holding a copy of every entity. */
    method SaveEntityState()
      requires Valid()
      modifies this
      ensures Valid()
      ensures entityStates == old(entityStates) + [Snapshot()]
      ensures robotCount == old(robotCount) && delay == old(delay)
    {
      var all := GetAllFieldEntities();
      var copies := CopyAll(all);
      assert this !in RobotObjects(all);
      entityStates := entityStates + [copies];
    }

    /** triggerUpdate: saves the entity state (the GUI refresh is not modelled). */
    method TriggerUpdate()
      requires Valid()
      modifies this
      ensures Valid()
      ensures entityStates == old(entityStates) + [Snapshot()]
      ensures robotCount == old(robotCount) && delay == old(delay)
    {
      SaveEntityState();
    }

    /** No field changed: the whole array is as before. */
    twostate predicate FieldsUnchanged()
      reads entities
    {
      unchanged(entities)
    }

    twostate predicate OnlyFieldChanged(x: int, y: int)
      reads entities
    {
      forall i, j :: 0 <= i < entities.Length0 && 0 <= j < entities.Length1 && (i != x || j != y) ==>
        entities[i, j] == old(entities[i, j])
    }

    /** pickCoin: takes one coin from the field's first coin entity, removing the entity when it held the last one. */
    method PickCoin(x: int, y: int) returns (r: Result<bool, Failure>)
      requires Valid()
      modifies this, entities
      ensures Valid() && OnlyFieldChanged(x, y)
      ensures r.Err? <==> !InBounds(x, y)
      ensures r.Err? ==> r.error == IndexOutOfBounds
      ensures robotCount == old(robotCount) && delay == old(delay)
      ensures r.Ok? ==> (r.value <==> old(Has(entities[x, y], IsCoin)))
      ensures r == Ok(false) || r.Err? ==> FieldsUnchanged() && entityStates == old(entityStates)
      ensures r == Ok(true) ==>
                entityStates == old(entityStates) + [Snapshot()] &&
                FieldCoins(entities[x, y]) == old(FieldCoins(entities[x, y])) - 1 &&
                (Has(entities[x, y], IsCoin) <==> old(FieldCoins(entities[x, y])) > 1) &&
                var cell := old(entities[x, y]);
                var k := FirstCoin(cell).value;
                entities[x, y] == if cell[k].count > 1 then cell[k := CoinEntity(cell[k].count - 1)]
                                  else cell[..k] + cell[k + 1..]
    {
      if !InBounds(x, y) {
        return Err(IndexOutOfBounds);
      }
      var field := entities[x, y];
      var i := 0;
      while i < |field|
        invariant 0 <= i <= |field|
        invariant forall j :: 0 <= j < i ==> !field[j].CoinEntity?
      {
        if field[i].CoinEntity? {
          assert FirstCoin(field) == Some(i);
          TakeCoinAt(x, y, i);
          TriggerUpdate();
          return Ok(true);
        }
        i := i + 1;
      }
      return Ok(false);
    }

    /** The found branch of pickCoin: one coin less on the field's coin entity at k, which goes once it is empty. */
    method TakeCoinAt(x: int, y: int, k: nat)
      requires Valid() && InBounds(x, y) && FirstCoin(entities[x, y]) == Some(k)
      modifies entities
      ensures Valid() && OnlyFieldChanged(x, y)
      ensures FieldCoins(entities[x, y]) == old(FieldCoins(entities[x, y])) - 1
      ensures Has(entities[x, y], IsCoin) <==> old(FieldCoins(entities[x, y])) > 1
      ensures var cell := old(entities[x, y]);
              entities[x, y] == if cell[k].count > 1 then cell[k := CoinEntity(cell[k].count - 1)]
                                else cell[..k] + cell[k + 1..]
    {
      var field := entities[x, y];
      if field[k].count > 1 {
        RecountedCoin(field, k, field[k].count - 1);
        entities[x, y] := field[k := CoinEntity(field[k].count - 1)];
        assert IsCoin(entities[x, y][k]);
      } else {
        RemovedOnlyCoin(field, k);
        entities[x, y] := field[..k] + field[k + 1..];
      }
    }

    /** putCoins: adds n coins to the field's coin entity, or places a new one holding n. */
    method PutCoins(x: int, y: int, n: int, global: GlobalSize) returns (o: Outcome<Failure>)
      requires Valid()
      modifies this, entities
      ensures Valid() && OnlyFieldChanged(x, y)
      ensures robotCount == old(robotCount) && delay == old(delay)
      ensures !(0 <= x < global.width) ==> o == Fail(InvalidX)
      ensures 0 <= x < global.width && !(0 <= y < global.height) ==> o == Fail(InvalidY)
      ensures 0 <= x < global.width && 0 <= y < global.height && n < 0 ==> o == Fail(NegativeCoinCount)
      ensures 0 <= x < global.width && 0 <= y < global.height && n == 0 ==> o == Fail(CoinCountBelowOne)
      ensures 0 <= x < global.width && 0 <= y < global.height && n >= 1 && !InBounds(x, y) ==>
                o == Fail(IndexOutOfBounds)
      ensures o.Pass? <==> 0 <= x < global.width && 0 <= y < global.height && n >= 1 && InBounds(x, y)
      ensures o.Fail? ==> FieldsUnchanged() && entityStates == old(entityStates)
      ensures o.Pass? ==> FieldCoins(entities[x, y]) == old(FieldCoins(entities[x, y])) + n
      ensures o.Pass? ==>
                entityStates == old(entityStates) + [Snapshot()] &&
                var cell := old(entities[x, y]);
                entities[x, y] == match FirstCoin(cell)
                  case Some(k) => cell[k := CoinEntity(cell[k].count + n)]
                  case None => cell + [CoinEntity(n)]
    {
      o := CheckXCoordinate(x, global);
      if o.Fail? { return; }
      o := CheckYCoordinate(y, global);
      if o.Fail? { return; }
      o := CheckNumberOfCoins(n);
      if o.Fail? { return; }
      if n < 1 {
        return Fail(CoinCountBelowOne);
      }
      if !InBounds(x, y) {
        return Fail(IndexOutOfBounds);
      }
      AddCoins(x, y, n);
      TriggerUpdate();
    }

    /** The change putCoins makes to a field of the arrays once the checks passed. */
    method AddCoins(x: int, y: int, n: int)
      requires Valid() && InBounds(x, y) && n >= 1
      modifies entities
      ensures Valid() && OnlyFieldChanged(x, y)
      ensures FieldCoins(entities[x, y]) == old(FieldCoins(entities[x, y])) + n
      ensures var cell := old(entities[x, y]);
              entities[x, y] == match FirstCoin(cell)
                case Some(k) => cell[k := CoinEntity(cell[k].count + n)]
                case None => cell + [CoinEntity(n)]
    {
      var field := entities[x, y];
      var i := 0;
      while i < |field|
        invariant 0 <= i <= |field|
        invariant forall j :: 0 <= j < i ==> !field[j].CoinEntity?
      {
        if field[i].CoinEntity? {
          assert FirstCoin(field) == Some(i);
          RecountedCoin(field, i, field[i].count + n);
          entities[x, y] := field[i := CoinEntity(field[i].count + n)];
          return;
        }
        i := i + 1;
      }
      AppendedNewKind(field, CoinEntity(n));
      entities[x, y] := field + [CoinEntity(n)];
      assert IsCoin(entities[x, y][|field|]);
      assert FirstCoin(entities[x, y]) == Some(|field|);
    }

    /** updateRobotField: takes the robot out of its old field, at its first position there, and adds it to its current field. */
    method UpdateRobotField(r: Robot, oldX: int, oldY: int) returns (o: Outcome<Failure>)
      requires Valid()
      modifies entities
      ensures Valid()
      ensures o.Fail? <==> !InBounds(oldX, oldY) || (old(RobotEntity(r) in entities[oldX, oldY]) && !InBounds(r.x, r.y))
      ensures o.Fail? ==> o.error == IndexOutOfBounds
      ensures !InBounds(oldX, oldY) || old(RobotEntity(r) !in entities[oldX, oldY]) ==> FieldsUnchanged()
      ensures InBounds(oldX, oldY) && old(RobotEntity(r) in entities[oldX, oldY]) ==>
                RobotRelocated(r, oldX, oldY, r.x, r.y)
    {
      if !InBounds(oldX, oldY) {
        return Fail(IndexOutOfBounds);
      }
      var i := 0;
      while i < |entities[oldX, oldY]|
        invariant 0 <= i <= |entities[oldX, oldY]|
        invariant FieldsUnchanged()
        invariant forall k :: 0 <= k < i ==> entities[oldX, oldY][k] != RobotEntity(r)
      {
        if entities[oldX, oldY][i] == RobotEntity(r) {
          o := MoveRobotEntity(r, oldX, oldY, i);
          return;
        }
        i := i + 1;
      }
      return Pass;
    }

    /** The found branch of updateRobotField: remove(i) from the old field, then add to the robot's field. */
    method MoveRobotEntity(r: Robot, oldX: int, oldY: int, i: nat) returns (o: Outcome<Failure>)
      requires Valid() && InBounds(oldX, oldY)
      requires IndexOf(entities[oldX, oldY], RobotEntity(r)) == Some(i)
      modifies entities
      ensures Valid()
      ensures o.Fail? <==> !InBounds(r.x, r.y)
      ensures o.Fail? ==> o.error == IndexOutOfBounds
      ensures RobotRelocated(r, oldX, oldY, r.x, r.y)
    {
      var cell := entities[oldX, oldY];
      RemovedKeepsFieldValid(cell, i);
      entities[oldX, oldY] := cell[..i] + cell[i + 1..];
      if !InBounds(r.x, r.y) {
        return Fail(IndexOutOfBounds);
      }
      RelocateKeepsFieldValid(entities[r.x, r.y], r, false, true);
      entities[r.x, r.y] := entities[r.x, r.y] + [RobotEntity(r)];
      return Pass;
    }

    /**
     * The effect of updateRobotField(r, oldX, oldY) once r stands at (newX, newY) and was in the
     * old field: its first occurrence there is gone, and it is added to the new field if that exists.
     */
    twostate predicate RobotRelocated(r: object, oldX: int, oldY: int, newX: int, newY: int)
      reads entities
    {
      forall i, j :: 0 <= i < entities.Length0 && 0 <= j < entities.Length1 ==>
        entities[i, j] == RelocateFirst(old(entities[i, j]), r, i == oldX && j == oldY, i == newX && j == newY)
    }

    /** placeBlock: validates the position and adds a block unless the field holds one. */
    method PlaceBlock(x: int, y: int, global: GlobalSize) returns (o: Outcome<Failure>)
      requires Valid()
      modifies this, entities
      ensures Valid() && OnlyFieldChanged(x, y)
      ensures robotCount == old(robotCount) && delay == old(delay)
      ensures !(0 <= x < global.width) ==> o == Fail(InvalidX)
      ensures 0 <= x < global.width && !(0 <= y < global.height) ==> o == Fail(InvalidY)
      ensures 0 <= x < global.width && 0 <= y < global.height && !InBounds(x, y) ==> o == Fail(IndexOutOfBounds)
      ensures o.Pass? <==> 0 <= x < global.width && 0 <= y < global.height && InBounds(x, y)
      ensures o.Fail? ==> FieldsUnchanged() && entityStates == old(entityStates)
      ensures o.Pass? ==> entities[x, y] == WithBlock(old(entities[x, y])) && IsBlockInField(x, y)
      ensures o.Pass? ==> entityStates == if old(IsBlockInField(x, y)) then old(entityStates)
                                          else old(entityStates) + [Snapshot()]
    {
      o := CheckXCoordinate(x, global);
      if o.Fail? { return; }
      o := CheckYCoordinate(y, global);
      if o.Fail? { return; }
      if !InBounds(x, y) {
        return Fail(IndexOutOfBounds);
      }
      WithBlockIdempotent(entities[x, y]);
      if Has(entities[x, y], IsBlock) {
        return;
      }
      entities[x, y] := entities[x, y] + [BlockEntity];
      TriggerUpdate();
    }

    /** placeWall: validates the position and adds a wall unless the field holds one of that orientation. */
    method PlaceWall(x: int, y: int, horizontal: bool, global: GlobalSize) returns (o: Outcome<Failure>)
      requires Valid()
      modifies this, entities
      ensures Valid() && OnlyFieldChanged(x, y)
      ensures robotCount == old(robotCount) && delay == old(delay)
      ensures !(0 <= x < global.width) ==> o == Fail(InvalidX)
      ensures 0 <= x < global.width && !(0 <= y < global.height) ==> o == Fail(InvalidY)
      ensures 0 <= x < global.width && 0 <= y < global.height && !InBounds(x, y) ==> o == Fail(IndexOutOfBounds)
      ensures o.Pass? <==> 0 <= x < global.width && 0 <= y < global.height && InBounds(x, y)
      ensures o.Fail? ==> FieldsUnchanged() && entityStates == old(entityStates)
      ensures o.Pass? ==> entities[x, y] == WithWall(old(entities[x, y]), horizontal) && IsWallInField(x, y, horizontal)
      ensures o.Pass? ==> entityStates == if old(IsWallInField(x, y, horizontal)) then old(entityStates)
                                          else old(entityStates) + [Snapshot()]
    {
      o := CheckXCoordinate(x, global);
      if o.Fail? { return; }
      o := CheckYCoordinate(y, global);
      if o.Fail? { return; }
      if !InBounds(x, y) {
        return Fail(IndexOutOfBounds);
      }
      WithWallIdempotent(entities[x, y], horizontal);
      if IsWallInField(x, y, horizontal) {
        return;
      }
      entities[x, y] := entities[x, y] + [WallEntity(horizontal)];
      TriggerUpdate();
    }

    method PlaceHorizontalWall(x: int, y: int, global: GlobalSize) returns (o: Outcome<Failure>)
      requires Valid()
      modifies this, entities
      ensures Valid() && OnlyFieldChanged(x, y)
      ensures o.Pass? <==> 0 <= x < global.width && 0 <= y < global.height && InBounds(x, y)
      ensures o.Fail? ==> FieldsUnchanged()
      ensures o.Pass? ==> entities[x, y] == WithWall(old(entities[x, y]), true) && IsWallInField(x, y, true)
    {
      o := PlaceWall(x, y, true, global);
    }

    method PlaceVerticalWall(x: int, y: int, global: GlobalSize) returns (o: Outcome<Failure>)
      requires Valid()
      modifies this, entities
      ensures Valid() && OnlyFieldChanged(x, y)
      ensures o.Pass? <==> 0 <= x < global.width && 0 <= y < global.height && InBounds(x, y)
      ensures o.Fail? ==> FieldsUnchanged()
      ensures o.Pass? ==> entities[x, y] == WithWall(old(entities[x, y]), false) && IsWallInField(x, y, false)
    {
      o := PlaceWall(x, y, false, global);
    }

    /** addRobot: adds the robot to its field, gives it the next id and saves the state. */
    method AddRobot(r: Robot) returns (o: Outcome<Failure>)
      requires Valid()
      modifies this, entities, r
      ensures Valid()
      ensures o.Fail? <==> !old(InBounds(r.x, r.y))
      ensures o.Fail? ==> o == Fail(IndexOutOfBounds) && FieldsUnchanged() && r.id == old(r.id) &&
                          robotCount == old(robotCount) && entityStates == old(entityStates)
      ensures o.Pass? ==> (InBounds(r.x, r.y) && OnlyFieldChanged(r.x, r.y) &&
                entities[r.x, r.y] == old(entities[r.x, r.y]) + [RobotEntity(r)] &&
                r.id == Some(NatToString(old(robotCount))) && robotCount == old(robotCount) + 1 &&
                entityStates == old(entityStates) + [Snapshot()])
      ensures r.x == old(r.x) && r.y == old(r.y) && r.direction == old(r.direction)
      ensures r.numberOfCoins == old(r.numberOfCoins) && r.off == old(r.off)
      ensures delay == old(delay)
    {
      if !InBounds(r.x, r.y) {
        return Fail(IndexOutOfBounds);
      }
      RelocateKeepsFieldValid(entities[r.x, r.y], r, false, true);
      entities[r.x, r.y] := entities[r.x, r.y] + [RobotEntity(r)];
      r.id := Some(NatToString(robotCount));
      robotCount := robotCount + 1;
      TriggerUpdate();
      return Pass;
    }

    /** reset: empties every field, then saves the state. */
    method Reset()
      requires Valid()
      modifies this, entities
      ensures Valid()
      ensures forall x, y :: 0 <= x < width && 0 <= y < height ==> entities[x, y] == []
      ensures entityStates == old(entityStates) + [Snapshot()] && Snapshot() == []
      ensures robotCount == old(robotCount) && delay == old(delay)
    {
      var i := 0;
      while i < width
        invariant 0 <= i <= width
        invariant Valid()
        invariant forall x, y :: 0 <= x < i && 0 <= y < height ==> entities[x, y] == []
        invariant entityStates == old(entityStates) && robotCount == old(robotCount) && delay == old(delay)
      {
        var j := 0;
        while j < height
          invariant 0 <= j <= height
          invariant Valid()
          invariant forall x, y :: 0 <= x < i && 0 <= y < height ==> entities[x, y] == []
          invariant forall y :: 0 <= y < j ==> entities[i, y] == []
          invariant entityStates == old(entityStates) && robotCount == old(robotCount) && delay == old(delay)
        {
          entities[i, j] := [];
          j := j + 1;
        }
        i := i + 1;
      }
      EmptyWorldHasNoEntities();
      TriggerUpdate();
    }

    /** A world whose fields are all empty lists no entity, so its snapshot is empty. */
    lemma EmptyWorldHasNoEntities()
      requires Valid()
      requires forall x, y :: 0 <= x < width && 0 <= y < height ==> entities[x, y] == []
      ensures AllFieldEntities() == [] && Snapshot() == []
    {
      if AllFieldEntities() != [] {
        var p := AllFieldEntities()[0];
        AllFieldEntitiesExact(p);
      }
    }
  }

  class Robot {
    var x: int
    var y: int
    var id: Option<string>
    var numberOfCoins: int
    var direction: Direction
    var off: bool
    const world: KarelWorld

    /** A robot of a well-formed world; its position may lie outside the world's arrays after a failed update. */
    ghost predicate Valid()
      reads this, world.entities
    {
      world.Valid() && IsInt(numberOfCoins)
    }

    constructor Init(world: KarelWorld, x: int, y: int, direction: Direction, numberOfCoins: int)
      ensures this.world == world && this.x == x && this.y == y && this.direction == direction
      ensures this.numberOfCoins == numberOfCoins && id.None? && !off
    {
      this.world := world;
      this.x := x;
      this.y := y;
      this.direction := direction;
      this.numberOfCoins := numberOfCoins;
      id := None;
      off := false;
    }

    /**
     * The robot constructors taking a world: validate the position against the global size and
     * the coins, then add the robot to the world. The shorter one faces UP holding no coins.
     */
    static method Create(world: KarelWorld, x: int, y: int, direction: Direction, numberOfCoins: int, global: GlobalSize)
      returns (r: Result<Robot, Failure>)
      requires world.Valid() && IsInt(numberOfCoins)
      modifies world, world.entities
      ensures world.Valid()
      ensures !(0 <= x < global.width) ==> r == Err(InvalidX)
      ensures 0 <= x < global.width && !(0 <= y < global.height) ==> r == Err(InvalidY)
      ensures 0 <= x < global.width && 0 <= y < global.height && numberOfCoins < 0 ==> r == Err(NegativeCoinCount)
      ensures 0 <= x < global.width && 0 <= y < global.height && numberOfCoins >= 0 && !world.InBounds(x, y) ==>
                r == Err(IndexOutOfBounds)
      ensures r.Ok? <==> 0 <= x < global.width && 0 <= y < global.height && numberOfCoins >= 0 && world.InBounds(x, y)
      ensures r.Err? ==> world.FieldsUnchanged() && world.robotCount == old(world.robotCount) &&
                         world.entityStates == old(world.entityStates)
      ensures r.Ok? ==> fresh(r.value) && r.value.Valid() && r.value.world == world &&
                        r.value.x == x && r.value.y == y && r.value.direction == direction &&
                        r.value.numberOfCoins == numberOfCoins && !r.value.off &&
                        r.value.id == Some(NatToString(old(world.robotCount))) &&
                        world.robotCount == old(world.robotCount) + 1 &&
                        world.OnlyFieldChanged(x, y) &&
                        world.entities[x, y] == old(world.entities[x, y]) + [RobotEntity(r.value)] &&
                        world.entityStates == old(world.entityStates) + [world.Snapshot()]
    {
      var o := CheckXCoordinate(x, global);
      if o.Fail? { return Err(o.error); }
      o := CheckYCoordinate(y, global);
      if o.Fail? { return Err(o.error); }
      o := CheckNumberOfCoins(numberOfCoins);
      if o.Fail? { return Err(o.error); }
      var robot := new Robot.Init(world, x, y, direction, numberOfCoins);
      o := world.AddRobot(robot);
      if o.Fail? { return Err(o.error); }
      return Ok(robot);
    }

    /** isFrontClear: the world's test for the field ahead; it throws only for a robot outside the world. */
    function FrontClear(): (r: Result<bool, Failure>)
      requires Valid()
      reads this, world.entities
      ensures r.Err? ==> r.error == IndexOutOfBounds
      ensures world.InBounds(x, y) ==>
                r.Ok? &&
                (r.value <==> world.InBounds(x + Dx(direction), y + Dy(direction)) &&
                              !world.IsBlockInField(x + Dx(direction), y + Dy(direction)) &&
                              !world.WallBetween(x, y, x + Dx(direction), y + Dy(direction)))
    {
      world.FrontClearAt(x, y, direction)
    }

    /** turnOff: the robot stops acting, and the world saves its state. */
    method TurnOff()
      requires Valid()
      modifies this, world
      ensures Valid() && off
      ensures x == old(x) && y == old(y) && direction == old(direction) && numberOfCoins == old(numberOfCoins)
      ensures id == old(id)
      ensures world.entityStates == old(world.entityStates) + [world.Snapshot()]
      ensures world.robotCount == old(world.robotCount) && world.delay == old(world.delay)
    {
      off := true;
      world.TriggerUpdate();
    }

    /** turnLeft: a turned-off robot does nothing; otherwise it turns and the world saves its state. */
    method TurnLeft()
      requires Valid()
      modifies this, world
      ensures Valid()
      ensures direction == if old(off) then old(direction) else LeftOf(old(direction))
      ensures x == old(x) && y == old(y) && numberOfCoins == old(numberOfCoins) && off == old(off) && id == old(id)
      ensures world.entityStates == if old(off) then old(world.entityStates)
                                    else old(world.entityStates) + [world.Snapshot()]
      ensures world.robotCount == old(world.robotCount) && world.delay == old(world.delay)
    {
      if off {
        return;
      }
      direction := LeftOf(direction);
      world.TriggerUpdate();
    }

    /** The fields after updateRobotField(this, oldX, oldY) with the robot now at (x, y). */
    twostate predicate UpdatedFrom(oldX: int, oldY: int)
      reads this, world.entities
    {
      if world.InArrays(oldX, oldY) && old(RobotEntity(this) in world.entities[oldX, oldY])
      then world.RobotRelocated(this, oldX, oldY, x, y)
      else world.FieldsUnchanged()
    }

    /** updateRobotField(this, oldX, oldY) throws: the old field, or the new one the robot is added to, lies outside the arrays. */
    twostate predicate UpdateFails(oldX: int, oldY: int)
      reads this, world.entities
    {
      !world.InArrays(oldX, oldY) || (old(RobotEntity(this) in world.entities[oldX, oldY]) && !world.InArrays(x, y))
    }

    /** setX: validates x against the global width; a running robot then goes there and the world follows. */
    method SetX(nx: int, global: GlobalSize) returns (o: Outcome<Failure>)
      requires Valid()
      modifies this, world, world.entities
      ensures Valid()
      ensures direction == old(direction) && numberOfCoins == old(numberOfCoins) && off == old(off) && id == old(id)
      ensures world.robotCount == old(world.robotCount) && world.delay == old(world.delay)
      ensures y == old(y)
      ensures CheckXCoordinate(nx, global).Fail? ==> o == Fail(InvalidX)
      ensures CheckXCoordinate(nx, global).Fail? || old(off) ==>
                x == old(x) && world.FieldsUnchanged() && world.entityStates == old(world.entityStates)
      ensures CheckXCoordinate(nx, global).Pass? && old(off) ==> o.Pass?
      ensures CheckXCoordinate(nx, global).Pass? && !old(off) ==>
                x == nx && UpdatedFrom(old(x), old(y)) &&
                (o.Fail? <==> UpdateFails(old(x), old(y))) &&
                (o.Fail? ==> o == Fail(IndexOutOfBounds) && world.entityStates == old(world.entityStates)) &&
                (o.Pass? ==> world.entityStates == old(world.entityStates) + [world.Snapshot()])
    {
      o := CheckXCoordinate(nx, global);
      if o.Fail? { return; }
      if off {
        return;
      }
      o := GoTo(nx, y);
    }

    /** setY: validates y against the global height; a running robot then goes there and the world follows. */
    method SetY(ny: int, global: GlobalSize) returns (o: Outcome<Failure>)
      requires Valid()
      modifies this, world, world.entities
      ensures Valid()
      ensures direction == old(direction) && numberOfCoins == old(numberOfCoins) && off == old(off) && id == old(id)
      ensures world.robotCount == old(world.robotCount) && world.delay == old(world.delay)
      ensures x == old(x)
      ensures CheckYCoordinate(ny, global).Fail? ==> o == Fail(InvalidY)
      ensures CheckYCoordinate(ny, global).Fail? || old(off) ==>
                y == old(y) && world.FieldsUnchanged() && world.entityStates == old(world.entityStates)
      ensures CheckYCoordinate(ny, global).Pass? && old(off) ==> o.Pass?
      ensures CheckYCoordinate(ny, global).Pass? && !old(off) ==>
                y == ny && UpdatedFrom(old(x), old(y)) &&
                (o.Fail? <==> UpdateFails(old(x), old(y))) &&
                (o.Fail? ==> o == Fail(IndexOutOfBounds) && world.entityStates == old(world.entityStates)) &&
                (o.Pass? ==> world.entityStates == old(world.entityStates) + [world.Snapshot()])
    {
      o := CheckYCoordinate(ny, global);
      if o.Fail? { return; }
      if off {
        return;
      }
      o := GoTo(x, ny);
    }

    /** setField: validates both coordinates before looking at the off flag; a running robot then goes there. */
    method SetField(nx: int, ny: int, global: GlobalSize) returns (o: Outcome<Failure>)
      requires Valid()
      modifies this, world, world.entities
      ensures Valid()
      ensures direction == old(direction) && numberOfCoins == old(numberOfCoins) && off == old(off) && id == old(id)
      ensures world.robotCount == old(world.robotCount) && world.delay == old(world.delay)
      ensures CheckXCoordinate(nx, global).Fail? ==> o == Fail(InvalidX)
      ensures CheckXCoordinate(nx, global).Pass? && CheckYCoordinate(ny, global).Fail? ==> o == Fail(InvalidY)
      ensures CheckXCoordinate(nx, global).Fail? || CheckYCoordinate(ny, global).Fail? || old(off) ==>
                x == old(x) && y == old(y) && world.FieldsUnchanged() && world.entityStates == old(world.entityStates)
      ensures CheckXCoordinate(nx, global).Pass? && CheckYCoordinate(ny, global).Pass? && old(off) ==> o.Pass?
      ensures CheckXCoordinate(nx, global).Pass? && CheckYCoordinate(ny, global).Pass? && !old(off) ==>
                x == nx && y == ny && UpdatedFrom(old(x), old(y)) &&
                (o.Fail? <==> UpdateFails(old(x), old(y))) &&
                (o.Fail? ==> o == Fail(IndexOutOfBounds) && world.entityStates == old(world.entityStates)) &&
                (o.Pass? ==> world.entityStates == old(world.entityStates) + [world.Snapshot()])
    {
      o := CheckXCoordinate(nx, global);
      if o.Fail? { return; }
      o := CheckYCoordinate(ny, global);
      if o.Fail? { return; }
      if off {
        return;
      }
      o := GoTo(nx, ny);
    }

    /** The part the setters share once the coordinates passed: the robot takes the new position and the world follows. */
    method GoTo(nx: int, ny: int) returns (o: Outcome<Failure>)
      requires Valid()
      modifies this, world, world.entities
      ensures Valid()
      ensures direction == old(direction) && numberOfCoins == old(numberOfCoins) && off == old(off) && id == old(id)
      ensures world.robotCount == old(world.robotCount) && world.delay == old(world.delay)
      ensures x == nx && y == ny && UpdatedFrom(old(x), old(y))
      ensures o.Fail? <==> UpdateFails(old(x), old(y))
      ensures o.Fail? ==> o == Fail(IndexOutOfBounds) && world.entityStates == old(world.entityStates)
      ensures o.Pass? ==> world.entityStates == old(world.entityStates) + [world.Snapshot()]
    {
      var oldX, oldY := x, y;
      x, y := nx, ny;
      o := world.UpdateRobotField(this, oldX, oldY);
      if o.Fail? { return; }
      world.TriggerUpdate();
    }
    /** The coordinate check of the setX or setY call a step in the current direction makes. */
    function StepCheck(global: GlobalSize): Outcome<Failure>
      reads this
    {
      match direction
      case Up => CheckYCoordinate(y + 1, global)
      case Down => CheckYCoordinate(y - 1, global)
      case Left => CheckXCoordinate(x - 1, global)
      case Right => CheckXCoordinate(x + 1, global)
    }

    /**
     * move: a turned-off robot does nothing; a blocked front turns it off and throws; otherwise it
     * steps one field forward.
     */
    method Move(global: GlobalSize) returns (o: Outcome<Failure>)
      requires Valid()
      modifies this, world, world.entities
      ensures Valid()
      ensures direction == old(direction) && numberOfCoins == old(numberOfCoins) && id == old(id)
      ensures world.robotCount == old(world.robotCount)
      ensures old(off) ==> o.Pass?
      ensures !old(off) && old(FrontClear()).Err? ==> o == Fail(IndexOutOfBounds)
      ensures old(off) || old(FrontClear()).Err? ==>
                x == old(x) && y == old(y) && off == old(off) &&
                world.FieldsUnchanged() && world.entityStates == old(world.entityStates)
      ensures !old(off) && old(FrontClear()) == Ok(false) ==>
                o == Fail(RobotCrashed) && off && x == old(x) && y == old(y) &&
                world.FieldsUnchanged() && world.entityStates == old(world.entityStates) + [world.Snapshot()]
      ensures !old(off) && old(FrontClear()) == Ok(true) ==> !off && StepDone(global, o)
    {
      if off {
        return Pass;
      }
      var clear := FrontClear();
      if clear.Err? {
        return Fail(IndexOutOfBounds);
      }
      if !clear.value {
        TurnOff();
        return Fail(RobotCrashed);
      }
      o := Step(global);
    }

    /**
     * The outcome of a step forward in the current direction. When the global check fails nothing
     * changes. Otherwise the robot is one field further on; when its old field is outside the arrays
     * it fails there. When it succeeds two states are saved, one by setX or setY and one by move, and
     * when the robot stood at most once in its old field the second updateRobotField changes nothing,
     * so the fields show exactly one relocation.
     */
    twostate predicate StepDone(global: GlobalSize, new o: Outcome<Failure>)
      reads this, world, world.entities
      reads if world.Valid() then RobotObjects(world.AllFieldEntities()) else {}
    {
      world.Valid() &&
      (old(StepCheck(global)).Fail? ==>
         o == old(StepCheck(global)) && x == old(x) && y == old(y) &&
         world.FieldsUnchanged() && world.entityStates == old(world.entityStates)) &&
      (old(StepCheck(global)).Pass? ==>
         x == old(x) + Dx(direction) && y == old(y) + Dy(direction) &&
         (o.Fail? <==> !world.InArrays(old(x), old(y))) &&
         (o.Fail? ==> o == Fail(IndexOutOfBounds) && world.FieldsUnchanged() &&
                      world.entityStates == old(world.entityStates)) &&
         (o.Pass? ==> |world.entityStates| == |old(world.entityStates)| + 2 &&
                      world.entityStates[..|old(world.entityStates)|] == old(world.entityStates) &&
                      world.entityStates[|world.entityStates| - 1] == world.Snapshot()) &&
         (o.Pass? && old(AtMostOnce(world.entities[x, y], RobotEntity(this))) ==> UpdatedFrom(old(x), old(y))))
    }

    /** The setX or setY call of move: one field forward in the current direction. */
    method Forward(global: GlobalSize) returns (o: Outcome<Failure>)
      requires Valid() && !off
      modifies this, world, world.entities
      ensures Valid() && !off
      ensures direction == old(direction) && numberOfCoins == old(numberOfCoins) && id == old(id)
      ensures world.robotCount == old(world.robotCount)
      ensures old(StepCheck(global)).Fail? ==>
                o == old(StepCheck(global)) && x == old(x) && y == old(y) &&
                world.FieldsUnchanged() && world.entityStates == old(world.entityStates)
      ensures old(StepCheck(global)).Pass? ==>
                x == old(x) + Dx(direction) && y == old(y) + Dy(direction) && UpdatedFrom(old(x), old(y)) &&
                (o.Fail? <==> UpdateFails(old(x), old(y))) &&
                (o.Fail? ==> o == Fail(IndexOutOfBounds) && world.entityStates == old(world.entityStates)) &&
                (o.Pass? ==> world.entityStates == old(world.entityStates) + [world.Snapshot()])
    {
      match direction
      case Up => o := SetY(y + 1, global);
      case Left => o := SetX(x - 1, global);
      case Down => o := SetY(y - 1, global);
      case Right => o := SetX(x + 1, global);
    }

    /** The step of move once the front is clear: setX or setY, then updateRobotField and a saved state. */
    method Step(global: GlobalSize) returns (o: Outcome<Failure>)
      requires Valid() && !off && FrontClear() == Ok(true)
      modifies this, world, world.entities
      ensures Valid() && !off
      ensures direction == old(direction) && numberOfCoins == old(numberOfCoins) && id == old(id)
      ensures world.robotCount == old(world.robotCount)
      ensures world.Valid()
      ensures old(StepCheck(global)).Fail? ==>
                o == old(StepCheck(global)) && x == old(x) && y == old(y) &&
                world.FieldsUnchanged() && world.entityStates == old(world.entityStates)
      ensures old(StepCheck(global)).Pass? ==> x == old(x) + Dx(direction) && y == old(y) + Dy(direction)
      ensures old(StepCheck(global)).Pass? ==> (o.Fail? <==> !world.InArrays(old(x), old(y)))
      ensures old(StepCheck(global)).Pass? && o.Fail? ==>
                o == Fail(IndexOutOfBounds) && world.FieldsUnchanged() && world.entityStates == old(world.entityStates)
      ensures old(StepCheck(global)).Pass? && o.Pass? ==>
                |world.entityStates| == |old(world.entityStates)| + 2 &&
                world.entityStates[..|old(world.entityStates)|] == old(world.entityStates) &&
                world.entityStates[|world.entityStates| - 1] == world.Snapshot()
      ensures old(StepCheck(global)).Pass? && o.Pass? && old(AtMostOnce(world.entities[x, y], RobotEntity(this))) ==>
                UpdatedFrom(old(x), old(y))
    {
      var oldX, oldY := x, y;
      ghost var single := world.InArrays(x, y) && AtMostOnce(world.entities[x, y], RobotEntity(this));
      ghost var oldField := if world.InArrays(x, y) then world.entities[x, y] else [];
      o := Forward(global);
      if o.Fail? {
        return;
      }
      if single && RobotEntity(this) in oldField {
        RemoveFirstOfSingle(oldField, RobotEntity(this));
      }
      ghost var first := world.Snapshot();
      Follow(oldX, oldY);
      TwoAppendsKeepPrefix(old(world.entityStates), first, world.Snapshot());
    }

    /** The second updateRobotField of move and its saved state, with the robot already on a field of the world. */
    method Follow(oldX: int, oldY: int)
      requires Valid() && world.InBounds(oldX, oldY) && world.InBounds(x, y)
      modifies world, world.entities
      ensures Valid()
      ensures world.robotCount == old(world.robotCount)
      ensures world.entityStates == old(world.entityStates) + [world.Snapshot()]
      ensures old(RobotEntity(this) !in world.entities[oldX, oldY]) ==>
                world.FieldsUnchanged()
    {
      var u := world.UpdateRobotField(this, oldX, oldY);
      assert u.Pass?;
      world.TriggerUpdate();
    }

    /** putCoin: a running robot holding a coin drops one on its field; holding none it turns off and throws. */
    method PutCoin(global: GlobalSize) returns (o: Outcome<Failure>)
      requires Valid()
      modifies this, world, world.entities
      ensures Valid()
      ensures x == old(x) && y == old(y) && direction == old(direction) && id == old(id)
      ensures world.robotCount == old(world.robotCount)
      ensures old(off) ==> o.Pass? && numberOfCoins == old(numberOfCoins) && off &&
                           world.FieldsUnchanged() && world.entityStates == old(world.entityStates)
      ensures !old(off) && old(numberOfCoins) <= 0 ==>
                o == Fail(RobotCrashed) && off && numberOfCoins == old(numberOfCoins) &&
                world.FieldsUnchanged() && world.entityStates == old(world.entityStates) + [world.Snapshot()]
      ensures !old(off) && old(numberOfCoins) > 0 ==>
                numberOfCoins == old(numberOfCoins) - 1 && !off &&
                (o.Pass? <==> 0 <= x < global.width && 0 <= y < global.height && world.InBounds(x, y)) &&
                (o.Fail? ==> world.FieldsUnchanged() && world.entityStates == old(world.entityStates)) &&
                (o.Pass? ==> world.OnlyFieldChanged(x, y) &&
                             FieldCoins(world.entities[x, y]) == old(FieldCoins(world.entities[x, y])) + 1 &&
                             world.entityStates == old(world.entityStates) + [world.Snapshot()])
    {
      if off {
        return Pass;
      }
      if numberOfCoins > 0 {
        numberOfCoins := numberOfCoins - 1;
        o := world.PutCoins(x, y, 1, global);
      } else {
        TurnOff();
        return Fail(RobotCrashed);
      }
    }

    /**
     * pickCoin: a running robot takes a coin from its field; with none there it turns off and
     * throws, its coin count back where it was. A field outside the arrays throws after the increment.
     */
    method PickCoin() returns (o: Outcome<Failure>)
      requires Valid()
      modifies this, world, world.entities
      ensures Valid()
      ensures x == old(x) && y == old(y) && direction == old(direction) && id == old(id)
      ensures world.robotCount == old(world.robotCount)
      ensures old(off) ==> o.Pass? && numberOfCoins == old(numberOfCoins) && off &&
                           world.FieldsUnchanged() && world.entityStates == old(world.entityStates)
      ensures !old(off) && !world.InBounds(x, y) ==>
                o == Fail(IndexOutOfBounds) && !off && numberOfCoins == IntSucc(old(numberOfCoins)) &&
                world.FieldsUnchanged() && world.entityStates == old(world.entityStates)
      ensures !old(off) && world.InBounds(x, y) ==> (o.Pass? <==> old(world.IsCoinInField(x, y)))
      ensures !old(off) && world.InBounds(x, y) && o.Pass? ==>
                !off && numberOfCoins == IntSucc(old(numberOfCoins)) && world.OnlyFieldChanged(x, y) &&
                FieldCoins(world.entities[x, y]) == old(FieldCoins(world.entities[x, y])) - 1 &&
                world.entityStates == old(world.entityStates) + [world.Snapshot()]
      ensures !old(off) && world.InBounds(x, y) && o.Fail? ==>
                o == Fail(RobotCrashed) && off && numberOfCoins == old(numberOfCoins) &&
                world.FieldsUnchanged() && world.entityStates == old(world.entityStates) + [world.Snapshot()]
    {
      if off {
        return Pass;
      }
      numberOfCoins := IntSucc(numberOfCoins);
      var picked := world.PickCoin(x, y);
      if picked.Err? {
        return Fail(picked.error);
      }
      if !picked.value {
        PredUndoesSucc(old(numberOfCoins));
        numberOfCoins := IntPred(numberOfCoins);
        TurnOff();
        return Fail(RobotCrashed);
      }
      return Pass;
    }
  }
}
