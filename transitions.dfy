/**
 * Transitions of the classic world (Transition.java): a record of one traced robot
 * action, numbered from a process-wide step counter.
 */
module Transitions {
  import opened Outcomes
  import opened Directions
  import opened JavaText

  /** The traceable actions of a robot. */
  datatype RobotAction =
    | Move | PickCoin | PutCoin | TurnLeft | TurnOff
    | SetNumberOfCoins | SetX | SetY | NoAction

  /** The copy of a robot that a transition keeps (the robot copy constructor). */
  datatype RobotCopy = RobotCopy(
    x: int, y: int, direction: Direction, numberOfCoins: int,
    id: Option<string>, imageId: Option<string>, off: bool)

  datatype Transition = Transition(step: int, action: RobotAction, robot: RobotCopy)

  /** Steps strictly increase along a sequence of transitions. */
  ghost predicate StepsIncrease(ts: seq<Transition>)
  {
    forall i, j :: 0 <= i < j < |ts| ==> ts[i].step < ts[j].step
  }

  /** The steps handed out by k constructions in a row, the counter starting at `start`. */
  function StepRun(start: int, k: nat): seq<int>
    requires IsInt(start)
    decreases k
  {
    if k == 0 then [] else [start] + StepRun(IntSucc(start), k - 1)
  }

  /** As long as the counter does not pass Java's largest int, the steps handed out are consecutive. */
  lemma {:induction false} StepRunConsecutive(start: int, k: nat)
    requires IsInt(start) && start + k - 1 <= IntMax
    ensures |StepRun(start, k)| == k
    ensures forall i :: 0 <= i < k ==> StepRun(start, k)[i] == start + i
    decreases k
  {
    if k > 1 {
      StepRunConsecutive(start + 1, k - 1);
      assert StepRun(start, k) == [start] + StepRun(start + 1, k - 1);
    } else if k == 1 {
      assert StepRun(start, k) == [start] + StepRun(IntSucc(start), 0);
    }
  }

  /** Hence they are unique and strictly increasing in creation order. */
  lemma StepRunIncreasing(start: int, k: nat)
    requires IsInt(start) && start + k - 1 <= IntMax
    ensures forall i, j :: 0 <= i < j < |StepRun(start, k)| ==> StepRun(start, k)[i] < StepRun(start, k)[j]
  {
    StepRunConsecutive(start, k);
  }

  /** Past 2^31 - 1 constructions the int counter wraps around, and a smaller step follows the largest. */
  lemma StepRunWraps()
    ensures StepRun(IntMax, 2) == [IntMax, IntMin]
  {
  }

  /** The static `nextStep` counter of Transition.java. */
  class StepCounter {
    var nextStep: int
    /** The steps handed out so far, in order. */
    ghost var issued: seq<int>

    ghost predicate Valid()
      reads this
    {
      IsInt(nextStep)
    }

    /** No step was handed out twice and all of them lie below the next one. */
    ghost predicate Monotone()
      reads this
    {
      (forall i, j :: 0 <= i < j < |issued| ==> issued[i] < issued[j]) &&
      (forall i :: 0 <= i < |issued| ==> issued[i] < nextStep)
    }

    constructor ()
      ensures Valid() && Monotone()
      ensures nextStep == 0 && issued == []
    {
      nextStep := 0;
      issued := [];
    }

    /** `new Transition(action, robot)`: takes the current counter value as its step and increments the counter. */
    method NewTransition(action: RobotAction, robot: RobotCopy) returns (t: Transition)
      requires Valid()
      modifies this
      ensures Valid()
      ensures t == Transition(old(nextStep), action, robot)
      ensures nextStep == IntSucc(old(nextStep))
      ensures issued == old(issued) + [t.step]
      ensures old(Monotone()) && old(nextStep) < IntMax ==> Monotone()
    {
      t := Transition(nextStep, action, robot);
      nextStep := IntSucc(nextStep);
      issued := issued + [t.step];
    }
  }
}
