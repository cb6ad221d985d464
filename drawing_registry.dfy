/**
 * The registry of drawings (DrawingRegistry.java): a map from field-entity classes to drawings, used
 * with a lookup that falls back to the nearest superclass that has a drawing and then to a fixed
 * fallback drawing, plus the order in which entities are painted. The map is a mutable HashMap
 * object: a registry, and every builder made from it, hold a reference to it.
 */
module Drawings {
  import opened Outcomes
  import opened JavaText

  /** A Java class, by its fully qualified name. */
  type ClassName = string

  const BlockClass: ClassName := "fopbot.Block"
  const CoinClass: ClassName := "fopbot.Coin"
  const RobotClass: ClassName := "fopbot.Robot"
  const WallClass: ClassName := "fopbot.Wall"

  /** The drawing objects: the four standard ones, any other a caller supplies, and FALLBACK_DRAWING. */
  datatype Drawable = BlockDrawing | CoinDrawing | RobotDrawing | WallDrawing | CustomDrawing(id: nat) | FallbackDrawing

  /** What getDrawingOrder's switch tells apart: an instance of Wall, Robot, Coin or Block, or anything else. */
  datatype EntityKind = WallEntity | RobotEntity | CoinEntity | BlockEntity | OtherEntity

  /** getDrawingOrder: lower values are painted first, that is below the others. */
  function DrawingOrder(e: EntityKind): (r: int)
    ensures 0 <= r <= IntMax
    ensures r == IntMax <==> e == OtherEntity
    ensures r < 4 <==> e != OtherEntity
  {
    match e
    case WallEntity => 0
    case RobotEntity => 1
    case CoinEntity => 2
    case BlockEntity => 3
    case OtherEntity => IntMax
  }

  /** No two kinds share a rank. */
  lemma DrawingOrderInjective(a: EntityKind, b: EntityKind)
    ensures DrawingOrder(a) == DrawingOrder(b) <==> a == b
  {
  }

  /** The comparators a registry can carry: comparingInt(getDrawingOrder), or one of a caller's own. */
  datatype EntityOrder = ByDrawingOrder | CustomOrder(id: nat)

  /** Comparator.comparingInt(getDrawingOrder): Integer.compare of the two ranks. */
  function CompareByDrawingOrder(a: EntityKind, b: EntityKind): (c: int)
    ensures c < 0 <==> DrawingOrder(a) < DrawingOrder(b)
    ensures c == 0 <==> a == b
    ensures c > 0 <==> DrawingOrder(b) < DrawingOrder(a)
  {
    DrawingOrderInjective(a, b);
    var x, y := DrawingOrder(a), DrawingOrder(b);
    if x < y then -1 else if x == y then 0 else 1
  }

  /** Swapping the two entities flips the sign. */
  lemma CompareAntisymmetric(a: EntityKind, b: EntityKind)
    ensures CompareByDrawingOrder(b, a) == -CompareByDrawingOrder(a, b)
  {
  }

  /** The default order paints walls, then robots, then coins, then blocks, then everything else. */
  lemma DefaultPaintOrder()
    ensures CompareByDrawingOrder(WallEntity, RobotEntity) < 0
    ensures CompareByDrawingOrder(RobotEntity, CoinEntity) < 0
    ensures CompareByDrawingOrder(CoinEntity, BlockEntity) < 0
    ensures CompareByDrawingOrder(BlockEntity, OtherEntity) < 0
  {
  }

  /**
   * The position in a class chain (the class itself, then its superclasses up to Object) of the first
   * class that has a drawing.
   */
  function NearestMapped(drawings: map<ClassName, Drawable>, chain: seq<ClassName>): (r: Option<nat>)
    ensures r.None? <==> forall i :: 0 <= i < |chain| ==> chain[i] !in drawings
    ensures r.Some? ==> r.value < |chain| && chain[r.value] in drawings &&
                        forall i :: 0 <= i < r.value ==> chain[i] !in drawings
  {
    if chain == [] then None
    else if chain[0] in drawings then Some(0)
    else match NearestMapped(drawings, chain[1..])
      case None => None
      case Some(i) => Some(i + 1)
  }

  /** What getDrawing answers for the chain: the nearest class's drawing, else FALLBACK_DRAWING. */
  function Resolve(drawings: map<ClassName, Drawable>, chain: seq<ClassName>): (d: Drawable)
  {
    match NearestMapped(drawings, chain)
    case None => FallbackDrawing
    case Some(i) => drawings[chain[i]]
  }

  /** The exact class's own drawing wins. */
  lemma ResolveExact(drawings: map<ClassName, Drawable>, clazz: ClassName, superclasses: seq<ClassName>)
    requires clazz in drawings
    ensures Resolve(drawings, [clazz] + superclasses) == drawings[clazz]
  {
    assert ([clazz] + superclasses)[0] == clazz;
  }

  /** Without one, the drawing of the nearest superclass that has one. */
  lemma ResolveNearestSuperclass(drawings: map<ClassName, Drawable>, clazz: ClassName, superclasses: seq<ClassName>, k: nat)
    requires clazz !in drawings && k < |superclasses| && superclasses[k] in drawings
    requires forall i :: 0 <= i < k ==> superclasses[i] !in drawings
    ensures Resolve(drawings, [clazz] + superclasses) == drawings[superclasses[k]]
  {
    var chain := [clazz] + superclasses;
    assert chain[k + 1] == superclasses[k];
    assert forall i :: 0 <= i < k ==> chain[i + 1] == superclasses[i];
    var n := NearestMapped(drawings, chain);
    assert n.Some? && n.value == k + 1 by {
      assert forall i :: 0 <= i < k + 1 ==> chain[i] !in drawings by {
        forall i | 0 <= i < k + 1
          ensures chain[i] !in drawings
        {
          if i > 0 {
            assert chain[i] == superclasses[i - 1];
          }
        }
      }
    }
  }

  /** With no class of the chain mapped, FALLBACK_DRAWING. */
  lemma ResolveFallback(drawings: map<ClassName, Drawable>, chain: seq<ClassName>)
    requires forall i :: 0 <= i < |chain| ==> chain[i] !in drawings
    ensures Resolve(drawings, chain) == FallbackDrawing
  {
  }

  /** The HashMap a registry and its builders share. */
  class DrawingMap {
    var entries: map<ClassName, Drawable>

    constructor (entries: map<ClassName, Drawable>)
      ensures this.entries == entries
    {
      this.entries := entries;
    }
  }

  class DrawingRegistry {
    const drawings: DrawingMap
    const order: EntityOrder

    /** The canonical constructor: the record holds the very map it is given. */
    constructor (drawings: DrawingMap, order: EntityOrder)
      ensures this.drawings == drawings && this.order == order
    {
      this.drawings := drawings;
      this.order := order;
    }

    /**
     * getDrawing: the exact class's drawing, else that of the first superclass, walking up from
     * clazz.getSuperclass() until null, that has one, else FALLBACK_DRAWING. `superclasses` is the
     * chain getSuperclass yields.
     */
    method GetDrawing(clazz: ClassName, superclasses: seq<ClassName>) returns (d: Drawable)
      ensures d == Resolve(drawings.entries, [clazz] + superclasses)
    {
      var chain := [clazz] + superclasses;
      if clazz in drawings.entries {
        assert chain[0] == clazz;
        return drawings.entries[clazz];
      }
      var i := 0;
      while i < |superclasses|
        invariant 0 <= i <= |superclasses|
        invariant forall j :: 0 <= j < i ==> superclasses[j] !in drawings.entries
      {
        if superclasses[i] in drawings.entries {
          ResolveNearestSuperclass(drawings.entries, clazz, superclasses, i);
          return drawings.entries[superclasses[i]];
        }
        i := i + 1;
      }
      assert forall j :: 0 <= j < |chain| ==> chain[j] !in drawings.entries by {
        forall j | 0 <= j < |chain|
          ensures chain[j] !in drawings.entries
        {
          if j > 0 {
            assert chain[j] == superclasses[j - 1];
          }
        }
      }
      ResolveFallback(drawings.entries, chain);
      return FallbackDrawing;
    }
  }

  /** The copy constructor: a new map with the parent's entries, and the parent's order. */
  method Copy(parent: DrawingRegistry) returns (r: DrawingRegistry)
    ensures fresh(r) && fresh(r.drawings)
    ensures r.drawings.entries == parent.drawings.entries && r.order == parent.order
  {
    var m := new DrawingMap(parent.drawings.entries);
    r := new DrawingRegistry(m, parent.order);
  }

  class DrawingRegistryBuilder {
    const drawings: DrawingMap

    /** The builder works on the map it is given, not on a copy. */
    constructor (drawings: DrawingMap)
      ensures this.drawings == drawings
    {
      this.drawings := drawings;
    }

    /** The builder without arguments: a new, empty map. */
    constructor Empty()
      ensures fresh(drawings) && drawings.entries == map[]
    {
      drawings := new DrawingMap(map[]);
    }

    /** add: the class now maps to the drawing, replacing any earlier one. */
    method Add(clazz: ClassName, drawing: Drawable) returns (b: DrawingRegistryBuilder)
      modifies drawings
      ensures b == this
      ensures drawings.entries == old(drawings.entries)[clazz := drawing]
    {
      drawings.entries := drawings.entries[clazz := drawing];
      return this;
    }

    /** addAll: putAll, so the given map's entries replace those of the same classes. */
    method AddAll(more: map<ClassName, Drawable>) returns (b: DrawingRegistryBuilder)
      modifies drawings
      ensures b == this
      ensures drawings.entries == old(drawings.entries) + more
      ensures forall c :: c in drawings.entries <==> c in old(drawings.entries) || c in more
      ensures forall c :: c in more ==> drawings.entries[c] == more[c]
      ensures forall c :: c in old(drawings.entries) && c !in more ==> drawings.entries[c] == old(drawings.entries)[c]
    {
      drawings.entries := drawings.entries + more;
      return this;
    }

    /** build: a registry over the builder's own map and the given order. */
    method Build(order: EntityOrder) returns (r: DrawingRegistry)
      ensures fresh(r) && r.drawings == drawings && r.order == order
    {
      r := new DrawingRegistry(drawings, order);
    }
  }

  /** builder(parent), as written: a builder over the parent's own map. */
  method BuilderOf(parent: DrawingRegistry) returns (b: DrawingRegistryBuilder)
    ensures fresh(b) && b.drawings == parent.drawings
  {
    b := new DrawingRegistryBuilder(parent.drawings);
  }

  /**
   * builder(parent) as its documentation describes it: a builder pre-populated with the parent's
   * drawings, over a map of its own.
   */
  method BuilderOfCopy(parent: DrawingRegistry) returns (b: DrawingRegistryBuilder)
    ensures fresh(b) && fresh(b.drawings) && b.drawings.entries == parent.drawings.entries
  {
    var m := new DrawingMap(parent.drawings.entries);
    b := new DrawingRegistryBuilder(m);
  }

  /** The entries of DEFAULT. */
  function DefaultEntries(): (m: map<ClassName, Drawable>)
    ensures m.Keys == {BlockClass, CoinClass, RobotClass, WallClass}
  {
    map[BlockClass := BlockDrawing, CoinClass := CoinDrawing, RobotClass := RobotDrawing, WallClass := WallDrawing]
  }

  /** DEFAULT: an empty builder, the four standard drawings added, built with the drawing order. */
  method Default() returns (r: DrawingRegistry)
    ensures fresh(r) && fresh(r.drawings)
    ensures r.drawings.entries == DefaultEntries() && r.order == ByDrawingOrder
    ensures r.drawings.entries[BlockClass] == BlockDrawing && r.drawings.entries[CoinClass] == CoinDrawing
    ensures r.drawings.entries[RobotClass] == RobotDrawing && r.drawings.entries[WallClass] == WallDrawing
  {
    var b := new DrawingRegistryBuilder.Empty();
    b := b.AddAll(DefaultEntries());
    r := b.Build(ByDrawingOrder);
  }

  /** A subclass of Coin with no drawing of its own is drawn like a coin by DEFAULT. */
  method CoinSubclassDrawnAsCoin() returns (d: Drawable)
    ensures d == CoinDrawing
  {
    var r := Default();
    d := r.GetDrawing("example.GoldCoin", [CoinClass, "fopbot.FieldEntity", "java.lang.Object"]);
    ResolveNearestSuperclass(r.drawings.entries, "example.GoldCoin", [CoinClass, "fopbot.FieldEntity", "java.lang.Object"], 0);
  }

  /** Editing a copy leaves the parent as it was. */
  method CopyIsIndependent(parent: DrawingRegistry, clazz: ClassName, drawing: Drawable) returns (copy: DrawingRegistry)
    ensures copy.drawings.entries == old(parent.drawings.entries)[clazz := drawing]
    ensures parent.drawings.entries == old(parent.drawings.entries)
  {
    copy := Copy(parent);
    var b := BuilderOf(copy);
    b := b.Add(clazz, drawing);
  }

  /**
   * A builder made from a registry writes through to it: adding a drawing through
   * builder(DEFAULT) changes what DEFAULT itself answers.
   */
  method SharedBuilderChangesParent(clazz: ClassName) returns (parent: DrawingRegistry, d: Drawable)
    ensures d == CustomDrawing(0) && parent.drawings.entries != DefaultEntries()
  {
    parent := Default();
    var b := BuilderOf(parent);
    b := b.Add(clazz, CustomDrawing(0));
    d := parent.GetDrawing(clazz, []);
    ResolveExact(parent.drawings.entries, clazz, []);
    if clazz in DefaultEntries() {
      assert DefaultEntries()[clazz] != CustomDrawing(0);
    }
  }

  /** The documented builder(parent) leaves DEFAULT as it was. */
  method CopiedBuilderKeepsParent(clazz: ClassName) returns (parent: DrawingRegistry, built: DrawingRegistry)
    ensures parent.drawings.entries == DefaultEntries()
    ensures built.drawings.entries == DefaultEntries()[clazz := CustomDrawing(0)]
  {
    parent := Default();
    var b := BuilderOfCopy(parent);
    b := b.Add(clazz, CustomDrawing(0));
    built := b.Build(parent.order);
  }
}
