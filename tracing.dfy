/**
 * The tracing decorators (trace/TracingRobot.java, trace/TracingWorld.java). A tracing robot
 * forwards every call to the robot it wraps and, after each action that returns normally, records
 * the wrapped robot's state tagged with that action; a tracing world wraps every robot it creates.
 */
module Tracing {
  import opened Outcomes
  import opened JavaText
  import opened ImplGrid
  import opened ImplWorld
  import opened Lists
  import opened ImplRobot

  /** The tags of the recorded states. */
  datatype TraceAction = Spawned | TurnedLeft | Moved | CoinPut | CoinPicked | TurnedOff | FieldSet

  /** A recorded state: the action and the robot's position, on-state, coins and direction after it. */
  datatype RobotState = RobotState(lastAction: TraceAction, x: int, y: int, turnedOn: bool,
                                   numberOfCoins: int, direction: Direction)

  class TracingRobot {
    const theRobot: Robot
    var trace: seq<RobotState>

    /** The trace opens with the one SPAWNED state; every later state is tagged with an action. */
    ghost predicate Valid()
      reads this
    {
      theRobot.Valid() && |trace| >= 1 && trace[0].lastAction == Spawned &&
      forall i :: 1 <= i < |trace| ==> trace[i].lastAction != Spawned
    }

    /** The state recordState builds from the wrapped robot. */
    function StateOf(a: TraceAction): (s: RobotState)
      reads theRobot
      ensures s.lastAction == a && s.turnedOn == !theRobot.IsTurnedOff()
      ensures (s.x, s.y, s.numberOfCoins, s.direction) == (theRobot.x, theRobot.y, theRobot.numberOfCoins, theRobot.dir)
    {
      RobotState(a, theRobot.x, theRobot.y, theRobot.on, theRobot.numberOfCoins, theRobot.dir)
    }

    /** Wrapping a robot records its state once, as SPAWNED. */
    constructor (theRobot: Robot)
      requires theRobot.Valid()
      ensures Valid() && this.theRobot == theRobot
      ensures trace == [StateOf(Spawned)]
    {
      this.theRobot := theRobot;
      trace := [RobotState(Spawned, theRobot.x, theRobot.y, theRobot.on, theRobot.numberOfCoins, theRobot.dir)];
    }

    /** recordState: one more state at the end of the trace. */
    method RecordState(a: TraceAction)
      requires Valid() && a != Spawned
      modifies this
      ensures Valid()
      ensures trace == old(trace) + [StateOf(a)]
    {
      trace := trace + [StateOf(a)];
    }

    /** turnLeft: the wrapped robot turns, then TURNED_LEFT is recorded. */
    method TurnLeft()
      requires Valid()
      modifies this, theRobot
      ensures Valid()
      ensures theRobot.dir == if old(theRobot.on) then LeftOf(old(theRobot.dir)) else old(theRobot.dir)
      ensures trace == old(trace) + [StateOf(TurnedLeft)]
    {
      theRobot.TurnLeft();
      RecordState(TurnedLeft);
    }

    /** move: MOVED is recorded only when the wrapped robot's move returns normally. */
    method Move() returns (o: Outcome<RobotFailure>)
      requires Valid()
      modifies this, theRobot, theRobot.world.grid.entities
      ensures Valid()
      ensures o.Fail? ==> trace == old(trace)
      ensures o.Pass? ==> trace == old(trace) + [StateOf(Moved)]
      ensures old(theRobot.on) && old(theRobot.IsFrontClear()) == Ok(true) ==>
                o.Pass? && theRobot.x == old(theRobot.x) + Dx(theRobot.dir) && theRobot.y == old(theRobot.y) + Dy(theRobot.dir)
      ensures old(theRobot.on) && old(theRobot.IsFrontClear()) == Ok(false) ==> o == Fail(Crashed)
    {
      o := theRobot.Move();
      if o.Fail? {
        return;
      }
      RecordState(Moved);
    }

    /** putCoin: PUT_COIN is recorded only when the wrapped robot's putCoin returns normally. */
    method PutCoin() returns (o: Outcome<RobotFailure>)
      requires Valid()
      modifies this, theRobot, theRobot.world.StackObjects(theRobot.x, theRobot.y)
      ensures Valid()
      ensures o.Fail? ==> trace == old(trace)
      ensures o.Pass? ==> trace == old(trace) + [StateOf(CoinPut)]
      ensures old(theRobot.on) && old(theRobot.numberOfCoins) <= 0 ==> o == Fail(Bankrupt)
      ensures old(theRobot.on) && old(theRobot.numberOfCoins) > 0 && o.Pass? ==>
                theRobot.numberOfCoins == old(theRobot.numberOfCoins) - 1
    {
      o := theRobot.PutCoin();
      if o.Fail? {
        return;
      }
      RecordState(CoinPut);
    }

    /** pickCoin: PICKED_COIN is recorded only when the wrapped robot's pickCoin returns normally. */
    method PickCoin() returns (o: Outcome<RobotFailure>)
      requires Valid()
      modifies this, theRobot, theRobot.world.StackObjects(theRobot.x, theRobot.y)
      ensures Valid()
      ensures o.Fail? ==> trace == old(trace)
      ensures o.Pass? ==> trace == old(trace) + [StateOf(CoinPicked)]
      ensures o.Pass? && old(theRobot.on) ==> theRobot.numberOfCoins == IntAdd(old(theRobot.numberOfCoins), 1)
    {
      o := theRobot.PickCoin();
      if o.Fail? {
        return;
      }
      RecordState(CoinPicked);
    }

    /** turnOff: the wrapped robot is off, then TURNED_OFF is recorded. */
    method TurnOff()
      requires Valid()
      modifies this, theRobot
      ensures Valid()
      ensures trace == old(trace) + [StateOf(TurnedOff)] && !trace[|trace| - 1].turnedOn
    {
      theRobot.TurnOff();
      RecordState(TurnedOff);
    }

    /** setField: SET_FIELD is recorded only when the wrapped robot's setField returns normally. */
    method SetField(nx: int, ny: int) returns (o: Outcome<RobotFailure>)
      requires Valid()
      modifies this, theRobot, theRobot.world.grid.entities
      ensures Valid()
      ensures o.Fail? <==> !theRobot.world.grid.InRange(nx, ny)
      ensures o.Fail? ==> trace == old(trace) && unchanged(theRobot) && unchanged(theRobot.world.grid.entities)
      ensures o.Pass? ==> trace == old(trace) + [StateOf(FieldSet)] && (theRobot.x, theRobot.y) == (nx, ny)
      ensures o.Pass? ==>
                var grid := theRobot.world.grid;
                grid.entities[nx, ny] == RemoveFirst(old(grid.entities[nx, ny]), RobotThing(theRobot)) + [RobotThing(theRobot)] &&
                forall i, j :: grid.InRange(i, j) && (i, j) != (nx, ny) ==> grid.entities[i, j] == old(grid.entities[i, j])
    {
      o := theRobot.SetField(nx, ny);
      if o.Fail? {
        return;
      }
      RecordState(FieldSet);
    }

    /** getTrace, and the order its iterator yields: the states in the order they were recorded. */
    function GetTrace(): (t: seq<RobotState>)
      requires Valid()
      reads this
      ensures |t| >= 1 && t[0].lastAction == Spawned
    {
      trace
    }
  }

  /** Two actions that both return normally add exactly their two states, in call order. */
  method TurnThenMove(t: TracingRobot) returns (o: Outcome<RobotFailure>)
    requires t.Valid()
    modifies t, t.theRobot, t.theRobot.world.grid.entities
    ensures t.Valid()
    ensures o.Pass? ==> |t.trace| == |old(t.trace)| + 2 && t.trace[..|old(t.trace)|] == old(t.trace) &&
                        t.trace[|old(t.trace)|].lastAction == TurnedLeft && t.trace[|old(t.trace)| + 1].lastAction == Moved
    ensures o.Fail? ==> |t.trace| == |old(t.trace)| + 1 && t.trace[|old(t.trace)|].lastAction == TurnedLeft
  {
    t.TurnLeft();
    o := t.Move();
  }

  class TracingWorld {
    const theWorld: HeadlessWorld
    var traces: seq<TracingRobot>

    /** Every tracing robot of the list wraps a robot of the wrapped world. */
    ghost predicate Valid()
      reads this
    {
      theWorld.Valid() && forall i :: 0 <= i < |traces| ==> traces[i].theRobot.world == theWorld
    }

    /** A new tracing world has not wrapped any robot yet. */
    constructor (theWorld: HeadlessWorld)
      requires theWorld.Valid()
      ensures Valid() && this.theWorld == theWorld && traces == []
    {
      this.theWorld := theWorld;
      traces := [];
    }

    /**
     * newRobot: the robot the wrapped world creates, given here as `robot`, is wrapped in a fresh
     * tracing robot, which joins the end of the list and is returned.
     */
    method NewRobot(robot: Robot) returns (t: TracingRobot)
      requires Valid() && robot.Valid() && robot.world == theWorld
      modifies this
      ensures Valid()
      ensures fresh(t) && t.Valid() && t.theRobot == robot && t.trace == [t.StateOf(Spawned)]
      ensures traces == old(traces) + [t]
    {
      t := new TracingRobot(robot);
      traces := traces + [t];
    }

    /** putCoins, forwarded; the list of traces stays. */
    method PutCoins(x: int, y: int, n: JavaInt) returns (o: Outcome<GridFailure>)
      requires Valid()
      modifies theWorld.StackObjects(x, y)
      ensures Valid() && traces == old(traces)
      ensures o == CheckCoords(x, y, theWorld.grid.width, theWorld.grid.height)
      ensures o.Pass? && theWorld.StackAt(x, y).Some? ==>
                theWorld.StackCount(x, y) == Some(IntAdd(old(theWorld.StackCount(x, y)).value, n))
    {
      o := theWorld.PutCoins(x, y, n);
    }

    /** pickCoin, forwarded; the list of traces stays. */
    method PickCoin(x: int, y: int) returns (r: Result<bool, GridFailure>)
      requires Valid()
      modifies theWorld.StackObjects(x, y)
      ensures Valid() && traces == old(traces)
      ensures r.Err? <==> !theWorld.grid.InRange(x, y)
      ensures r.Ok? ==> (r.value <==> old(theWorld.StackCount(x, y)).Some? && old(theWorld.StackCount(x, y)).value != 0)
    {
      r := theWorld.PickCoin(x, y);
    }

    /** putBlock, forwarded; the list of traces stays. */
    method PutBlock(x: int, y: int) returns (o: Outcome<GridFailure>)
      requires Valid()
      modifies theWorld.grid.entities
      ensures Valid() && traces == old(traces)
      ensures o == CheckCoords(x, y, theWorld.grid.width, theWorld.grid.height)
      ensures o.Pass? ==> theWorld.HasBlockInField(x, y) == Ok(true)
    {
      o := theWorld.PutBlock(x, y);
    }

    /** reset, forwarded; the list of traces stays. */
    method Reset()
      requires Valid()
      modifies theWorld.grid.entities
      ensures Valid() && traces == old(traces)
      ensures forall x, y :: theWorld.grid.InRange(x, y) ==> theWorld.grid.entities[x, y] == []
    {
      theWorld.Reset();
    }

    /** getTraces: the tracing robots in the order they were created. */
    function GetTraces(): (r: seq<TracingRobot>)
      requires Valid()
      reads this
      ensures forall i :: 0 <= i < |r| ==> r[i].theRobot.world == theWorld
    {
      traces
    }
  }

  /** Creating two robots lists their tracing robots in creation order. */
  method TwoRobotsInOrder(w: TracingWorld, a: Robot, b: Robot) returns (ta: TracingRobot, tb: TracingRobot)
    requires w.Valid() && a.Valid() && b.Valid() && a.world == w.theWorld && b.world == w.theWorld
    modifies w
    ensures w.Valid() && w.traces == old(w.traces) + [ta, tb] && ta != tb
    ensures ta.theRobot == a && tb.theRobot == b
  {
    ta := w.NewRobot(a);
    tb := w.NewRobot(b);
  }
}
