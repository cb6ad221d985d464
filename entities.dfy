/**
 * The content of one field of a FOPBot world: an ordered list of entities (coin
 * piles, blocks, walls and robots), with the counting and updating functions both
 * the classic and the older KarelWorld use. A robot entity refers to its robot
 * object by identity, as the Java lists do.
 */
module FieldEntities {
  import opened Outcomes

  /** The entities a field holds; a coin entity stands for a pile of `count` coins. */
  datatype Entity =
    | CoinEntity(count: int)
    | BlockEntity
    | WallEntity(horizontal: bool)
    | RobotEntity(robot: object)

  predicate IsCoin(e: Entity) { e.CoinEntity? }
  predicate IsBlock(e: Entity) { e.BlockEntity? }
  predicate IsHorizontalWall(e: Entity) { e.WallEntity? && e.horizontal }
  predicate IsVerticalWall(e: Entity) { e.WallEntity? && !e.horizontal }
  predicate IsWall(e: Entity, horizontal: bool) { e.WallEntity? && e.horizontal == horizontal }

  /** The number of entities of a field that satisfy p. */
  function Count(cell: seq<Entity>, p: Entity -> bool): nat
  {
    if cell == [] then 0 else (if p(cell[0]) then 1 else 0) + Count(cell[1..], p)
  }

  /** `anyMatch(p)` on a field's entities. */
  predicate Has(cell: seq<Entity>, p: Entity -> bool)
  {
    exists i :: 0 <= i < |cell| && p(cell[i])
  }

  /** A well-formed field: at most one coin entity, with a positive count, at most one block, at most one wall per orientation. */
  ghost predicate FieldValid(cell: seq<Entity>)
  {
    Count(cell, IsCoin) <= 1 && Count(cell, IsBlock) <= 1 &&
    Count(cell, IsHorizontalWall) <= 1 && Count(cell, IsVerticalWall) <= 1 &&
    forall i :: 0 <= i < |cell| && cell[i].CoinEntity? ==> cell[i].count >= 1
  }

  /** The position of the first coin entity of a field, the one every coin operation works on. */
  function FirstCoin(cell: seq<Entity>): (r: Option<nat>)
    ensures r.None? <==> !Has(cell, IsCoin)
    ensures r.Some? ==> r.value < |cell| && cell[r.value].CoinEntity? &&
                        forall j :: 0 <= j < r.value ==> !cell[j].CoinEntity?
  {
    if cell == [] then None
    else if cell[0].CoinEntity? then Some(0)
    else match FirstCoin(cell[1..])
      case None => None
      case Some(k) => Some(k + 1)
  }

  /** The iterator walk of putCoins: the index of the first Coin entity it meets, if any. */
  method FindFirstCoin(cell: seq<Entity>) returns (r: Option<nat>)
    ensures r == FirstCoin(cell)
  {
    var i := 0;
    while i < |cell|
      invariant 0 <= i <= |cell|
      invariant forall j :: 0 <= j < i ==> !cell[j].CoinEntity?
    {
      if cell[i].CoinEntity? {
        return Some(i);
      }
      i := i + 1;
    }
    return None;
  }

  /** The number of coins lying on a field. */
  function FieldCoins(cell: seq<Entity>): int
  {
    match FirstCoin(cell)
    case None => 0
    case Some(k) => cell[k].count
  }

  /** `removeIf(entity -> entity == robot)`: every occurrence of the robot goes, all else stays in order. */
  function WithoutRobot(cell: seq<Entity>, r: object): (rest: seq<Entity>)
    ensures RobotEntity(r) !in rest
    ensures forall i :: 0 <= i < |rest| ==> rest[i] in cell && rest[i] != RobotEntity(r)
    ensures forall i :: 0 <= i < |cell| && cell[i] != RobotEntity(r) ==> cell[i] in rest
    ensures RobotEntity(r) !in cell ==> rest == cell
  {
    if cell == [] then []
    else if cell[0] == RobotEntity(r) then WithoutRobot(cell[1..], r)
    else [cell[0]] + WithoutRobot(cell[1..], r)
  }

  /** The content of one field after a robot was taken out of `from` and added to `to`. */
  function Relocate(cell: seq<Entity>, r: object, from: bool, to: bool): seq<Entity>
  {
    var rest := if from then WithoutRobot(cell, r) else cell;
    if to then rest + [RobotEntity(r)] else rest
  }

  /**
   * A robot's own entry never counts as another robot: taking it out of a field or adding it leaves
   * isAnotherRobotInField's answer for that robot as it was.
   */
  lemma {:induction false} OtherRobotIgnoresRelocation(cell: seq<Entity>, r: object, from: bool, to: bool)
    ensures (exists e :: e in Relocate(cell, r, from, to) && e.RobotEntity? && e.robot != r) <==>
            (exists e :: e in cell && e.RobotEntity? && e.robot != r)
  {
    var rest := if from then WithoutRobot(cell, r) else cell;
    assert Relocate(cell, r, from, to) == if to then rest + [RobotEntity(r)] else rest;
    if exists e :: e in cell && e.RobotEntity? && e.robot != r {
      var e :| e in cell && e.RobotEntity? && e.robot != r;
      assert e in rest;
    }
  }

  lemma {:induction false} CountConcat(s: seq<Entity>, t: seq<Entity>, p: Entity -> bool)
    ensures Count(s + t, p) == Count(s, p) + Count(t, p)
    decreases |s|
  {
    if s != [] {
      assert (s + t)[1..] == s[1..] + t;
      CountConcat(s[1..], t, p);
    } else {
      assert s + t == t;
    }
  }

  lemma {:induction false} CountPositiveIffHas(s: seq<Entity>, p: Entity -> bool)
    ensures Count(s, p) > 0 <==> Has(s, p)
    decreases |s|
  {
    if s != [] {
      CountPositiveIffHas(s[1..], p);
      if Has(s[1..], p) {
        var i :| 0 <= i < |s[1..]| && p(s[1..][i]);
        assert p(s[i + 1]);
      }
      if Has(s, p) && !p(s[0]) {
        var i :| 0 <= i < |s| && p(s[i]);
        assert p(s[1..][i - 1]);
      }
    }
  }

  lemma {:induction false} CountSplit(s: seq<Entity>, k: nat, p: Entity -> bool)
    requires k < |s|
    ensures Count(s, p) == Count(s[..k], p) + (if p(s[k]) then 1 else 0) + Count(s[k + 1..], p)
  {
    assert s == s[..k] + ([s[k]] + s[k + 1..]);
    CountConcat(s[..k], [s[k]] + s[k + 1..], p);
    CountConcat([s[k]], s[k + 1..], p);
  }

  /** Replacing one entity changes each count by what the two entities contribute. */
  lemma {:induction false} CountUpdate(s: seq<Entity>, k: nat, e: Entity, p: Entity -> bool)
    requires k < |s|
    ensures Count(s[k := e], p) == Count(s, p) - (if p(s[k]) then 1 else 0) + (if p(e) then 1 else 0)
  {
    CountSplit(s, k, p);
    CountSplit(s[k := e], k, p);
    assert s[k := e][..k] == s[..k] && s[k := e][k + 1..] == s[k + 1..];
  }

  lemma {:induction false} CountRemove(s: seq<Entity>, k: nat, p: Entity -> bool)
    requires k < |s|
    ensures Count(s[..k] + s[k + 1..], p) == Count(s, p) - (if p(s[k]) then 1 else 0)
  {
    CountSplit(s, k, p);
    CountConcat(s[..k], s[k + 1..], p);
  }

  lemma {:induction false} CountAppend(s: seq<Entity>, e: Entity, p: Entity -> bool)
    ensures Count(s + [e], p) == Count(s, p) + (if p(e) then 1 else 0)
  {
    CountConcat(s, [e], p);
    assert [e][1..] == [];
  }

  lemma {:induction false} CountWithoutRobot(s: seq<Entity>, r: object, p: Entity -> bool)
    requires !p(RobotEntity(r))
    ensures Count(WithoutRobot(s, r), p) == Count(s, p)
    decreases |s|
  {
    if s != [] {
      CountWithoutRobot(s[1..], r, p);
      if s[0] != RobotEntity(r) {
        assert ([s[0]] + WithoutRobot(s[1..], r))[1..] == WithoutRobot(s[1..], r);
      }
    }
  }

  /** Moving a robot between fields keeps both fields well formed. */
  lemma {:induction false} RelocateKeepsFieldValid(cell: seq<Entity>, r: object, from: bool, to: bool)
    requires FieldValid(cell)
    ensures FieldValid(Relocate(cell, r, from, to))
  {
    var rest := if from then WithoutRobot(cell, r) else cell;
    if from {
      CountWithoutRobot(cell, r, IsCoin);
      CountWithoutRobot(cell, r, IsBlock);
      CountWithoutRobot(cell, r, IsHorizontalWall);
      CountWithoutRobot(cell, r, IsVerticalWall);
    }
    if to {
      CountAppend(rest, RobotEntity(r), IsCoin);
      CountAppend(rest, RobotEntity(r), IsBlock);
      CountAppend(rest, RobotEntity(r), IsHorizontalWall);
      CountAppend(rest, RobotEntity(r), IsVerticalWall);
    }
  }

  /** A field can hold only one coin entity, so after it is removed none is left. */
  lemma {:induction false} RemovedOnlyCoin(cell: seq<Entity>, k: nat)
    requires FieldValid(cell) && k < |cell| && cell[k].CoinEntity?
    ensures !Has(cell[..k] + cell[k + 1..], IsCoin)
    ensures FieldValid(cell[..k] + cell[k + 1..])
  {
    var rest := cell[..k] + cell[k + 1..];
    CountRemove(cell, k, IsCoin);
    CountRemove(cell, k, IsBlock);
    CountRemove(cell, k, IsHorizontalWall);
    CountRemove(cell, k, IsVerticalWall);
    CountPositiveIffHas(rest, IsCoin);
  }

  /** Removing any one entity keeps a field well formed. */
  lemma {:induction false} RemovedKeepsFieldValid(cell: seq<Entity>, k: nat)
    requires FieldValid(cell) && k < |cell|
    ensures FieldValid(cell[..k] + cell[k + 1..])
  {
    var rest := cell[..k] + cell[k + 1..];
    CountRemove(cell, k, IsCoin);
    CountRemove(cell, k, IsBlock);
    CountRemove(cell, k, IsHorizontalWall);
    CountRemove(cell, k, IsVerticalWall);
    forall i | 0 <= i < |rest| && rest[i].CoinEntity?
      ensures rest[i].count >= 1
    {
      if i >= k { assert rest[i] == cell[i + 1]; }
    }
  }

  /** Changing the count of the coin entity keeps a field well formed while the count stays positive. */
  lemma {:induction false} RecountedCoin(cell: seq<Entity>, k: nat, n: int)
    requires FieldValid(cell) && k < |cell| && cell[k].CoinEntity? && n >= 1
    ensures FieldValid(cell[k := CoinEntity(n)])
    ensures FieldCoins(cell[k := CoinEntity(n)]) == n
  {
    var c := cell[k := CoinEntity(n)];
    CountUpdate(cell, k, CoinEntity(n), IsCoin);
    CountUpdate(cell, k, CoinEntity(n), IsBlock);
    CountUpdate(cell, k, CoinEntity(n), IsHorizontalWall);
    CountUpdate(cell, k, CoinEntity(n), IsVerticalWall);
    forall i | 0 <= i < |c| && c[i].CoinEntity?
      ensures c[i].count >= 1
    {
      if i != k { assert c[i] == cell[i]; }
    }
    var f := FirstCoin(c);
    assert IsCoin(c[k]);
    if f.value < k {
      CountSplit(c, k, IsCoin);
      CountSplit(c[..k], f.value, IsCoin);
      assert false;
    }
  }

  /** Appending an entity of a kind the field does not hold yet keeps it well formed. */
  lemma {:induction false} AppendedNewKind(cell: seq<Entity>, e: Entity)
    requires FieldValid(cell)
    requires e.CoinEntity? ==> !Has(cell, IsCoin) && e.count >= 1
    requires e.BlockEntity? ==> !Has(cell, IsBlock)
    requires e.WallEntity? ==> !Has(cell, e1 => IsWall(e1, e.horizontal))
    ensures FieldValid(cell + [e])
  {
    CountAppend(cell, e, IsCoin);
    CountAppend(cell, e, IsBlock);
    CountAppend(cell, e, IsHorizontalWall);
    CountAppend(cell, e, IsVerticalWall);
    CountPositiveIffHas(cell, IsCoin);
    CountPositiveIffHas(cell, IsBlock);
    CountPositiveIffHas(cell, IsHorizontalWall);
    CountPositiveIffHas(cell, IsVerticalWall);
  }

  /** The field after placeBlock: unchanged when it holds a block, else with one appended. */
  function WithBlock(cell: seq<Entity>): seq<Entity>
  {
    if Has(cell, IsBlock) then cell else cell + [BlockEntity]
  }

  /** The field after placeWall with the given orientation. */
  function WithWall(cell: seq<Entity>, horizontal: bool): seq<Entity>
  {
    if Has(cell, e => IsWall(e, horizontal)) then cell else cell + [WallEntity(horizontal)]
  }

  /** placeBlock is idempotent, leaves a block in the field and keeps it well formed. */
  lemma {:induction false} WithBlockIdempotent(cell: seq<Entity>)
    requires FieldValid(cell)
    ensures WithBlock(WithBlock(cell)) == WithBlock(cell)
    ensures Has(WithBlock(cell), IsBlock)
    ensures FieldValid(WithBlock(cell))
  {
    if !Has(cell, IsBlock) {
      var c := cell + [BlockEntity];
      assert IsBlock(c[|cell|]);
      AppendedNewKind(cell, BlockEntity);
    }
  }

  /** placeWall is idempotent per orientation, never touches the other orientation and keeps the field well formed. */
  lemma {:induction false} WithWallIdempotent(cell: seq<Entity>, horizontal: bool)
    requires FieldValid(cell)
    ensures WithWall(WithWall(cell, horizontal), horizontal) == WithWall(cell, horizontal)
    ensures Has(WithWall(cell, horizontal), e => IsWall(e, horizontal))
    ensures Has(WithWall(cell, horizontal), e => IsWall(e, !horizontal)) == Has(cell, e => IsWall(e, !horizontal))
    ensures FieldValid(WithWall(cell, horizontal))
  {
    if !Has(cell, e => IsWall(e, horizontal)) {
      var c := cell + [WallEntity(horizontal)];
      assert IsWall(c[|cell|], horizontal);
      AppendedNewKind(cell, WallEntity(horizontal));
      if Has(c, e => IsWall(e, !horizontal)) {
        var i :| 0 <= i < |c| && IsWall(c[i], !horizontal);
        assert i < |cell| && IsWall(cell[i], !horizontal);
      }
      if Has(cell, e => IsWall(e, !horizontal)) {
        var i :| 0 <= i < |cell| && IsWall(cell[i], !horizontal);
        assert IsWall(c[i], !horizontal);
      }
    }
  }

}
