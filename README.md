# FOPBot in Dafny

FOPBot is a Java teaching library. It provides a discrete grid world in which robots move, turn, and drop or pick up coins among walls and blocks, and it records what the robots did. Several revisions of the world live side by side in the repository. This project models each revision on its own terms:

- **The classic world** (`src/main/java/fopbot/KarelWorld.java`, `Robot.java`, `RobotTrace.java`, `Transition.java`, `World.java`):
  - fields are `fields[y][x]` lists of entities, and a coin pile is a single `Coin` entity with a count;
  - robots get consecutive string ids, and every robot action is appended to that robot's trace under a process-wide step counter;
  - an action limit is checked against the summed trace lengths;
  - `World` is a lazily created global world. It is module `Karel` (karel.dfy), with `Directions`, `Transitions` and `PaintUtils`.
- **The older classic world** (`src/fopbot/KarelWorld.java`, `Robot.java`):
  - fields are `entities[x][y]` lists;
  - coordinates are checked against the size of a separate global world;
  - every update appends a snapshot of all entities to `entityStates`.
  - It is module `LegacyKarel`.
- **The wall-per-side worlds:**
  - `impl/Grid.java` and `foshbot/grid/Grid.java`: four wall flags per cell, and setters that mirror a wall onto the neighbouring cell. They are modules `ImplGrid` and `LegacyGrid`.
  - Both `AbstractWorld`s, both `AbstractRobot`s, `CoinStack` and `HeadlessWorld`: modules `ImplWorld`, `LegacyImplWorld`, `ImplRobot`, `LegacyImplRobot` and `CoinStacks`. In these worlds NORTH decreases y.
- **Decorators and small structures:**
  - the tracing robot and world (module `Tracing`);
  - `HookableHashMap` (module `HookableMaps`);
  - `DrawingRegistry` (module `Drawings`);
  - the memoising `ResourceCache` (module `ResourceCaches`).

How the model is built:

- Objects whose fields the Java code updates in place are Dafny classes with `modifies` and `reads` frames. The world grids are arrays of entity sequences (or sets, where the source uses a `HashSet`).
- Pure code (directions, layout arithmetic, lookups) is functions and lemmas.
- A thrown exception is an `Outcome`/`Result` error value, and a `null` result is an `Option`.
- Java `int` arithmetic that can overflow (coin stacks, the step counter) is written out as 32-bit two's-complement wrap-around in `JavaText`.

## Model

Source paths are relative to the repository root.

| member | source | states |
|---|---|---|
| Directions.Dx | src/main/java/fopbot/Direction.java:10-22 | the x offset: a unit, non-zero exactly for LEFT and RIGHT |
| Directions.Dy | src/main/java/fopbot/Direction.java:10-22 | the y offset: a unit, non-zero exactly for UP and DOWN |
| Directions.IsHorizontal | src/main/java/fopbot/Direction.java:66-68 | isHorizontal (dy = 0) holds exactly when the direction changes x |
| Directions.IsVertical | src/main/java/fopbot/Direction.java:75-77 | isVertical (dx = 0) holds exactly when the direction changes y |
| Directions.Opposite | src/main/java/fopbot/Direction.java:10-22 | the reverse direction: both offsets negated |
| Directions.LeftOf | src/main/java/fopbot/Robot.java:174-189 | turnLeft's table: the new direction's offsets are the old (dx,dy) rotated to (-dy,dx) |
| Directions.OffsetTable | src/main/java/fopbot/Direction.java:10-22 | UP is (0,1), RIGHT (1,0), DOWN (0,-1), LEFT (-1,0) |
| Directions.HorizontalIffSideways | src/main/java/fopbot/Direction.java:66-77 | isHorizontal holds exactly for LEFT and RIGHT (dy = 0); isVertical exactly for UP and DOWN (dx = 0) |
| Directions.ExactlyOneAxis | src/main/java/fopbot/Direction.java:10-22 | every direction is exactly one of horizontal and vertical, and abs(dx) + abs(dy) = 1 |
| Directions.OppositeOffsetsCancel | src/main/java/fopbot/Direction.java:10-22 | the opposite direction is different, opposite twice is the identity, and their offsets sum to (0,0) |
| Directions.OffsetsIdentifyDirection | src/main/java/fopbot/Direction.java:48-59 | two directions have the same (dx, dy) iff they are equal |
| Directions.FourLeftTurns | src/main/java/fopbot/Robot.java:174-189 | the UP, LEFT, DOWN, RIGHT turn cycle returns after exactly four turns and not before |
| PaintUtils.BoardSize | src/main/java/fopbot/PaintUtils.java:49-53 | the board is 4(w+1)+60w by 4(h+1)+60h pixels |
| PaintUtils.UpperLeftCornerInField | src/main/java/fopbot/PaintUtils.java:140-149 | the corner's x is 28 + 64x and its y is 28 + 64 times the flipped row |
| PaintUtils.FieldBounds | src/main/java/fopbot/PaintUtils.java:158-167 | a 52 by 52 square anchored at the field's upper-left corner |
| PaintUtils.RowsAreFlipped | src/main/java/fopbot/PaintUtils.java:140-149 | the drawn row is h-1-y, so row h-1 is at the top (y pixel 28) and row 0 at the bottom |
| PaintUtils.NeighboursAre64Apart | src/main/java/fopbot/PaintUtils.java:140-149 | horizontally and vertically adjacent fields have corners exactly 64 pixels apart, with y drawn upwards |
| PaintUtils.FieldInsideBoard | src/main/java/fopbot/PaintUtils.java:49-53 | for a field in the grid, its bounds lie inside the board rectangle drawn at offset 20, in both x and y |
| PaintUtils.FieldsDoNotOverlap | src/main/java/fopbot/PaintUtils.java:158-167 | two different fields in the grid have bounds at least 12 pixels apart in x or y |
| JavaText.NatToString | src/main/java/fopbot/KarelWorld.java:142 | Integer.toString of a non-negative int: non-empty, one digit iff n < 10, last digit n mod 10 |
| JavaText.NatToStringInjective | src/main/java/fopbot/KarelWorld.java:142-143 | different counters give different id strings |
| JavaText.DigitsDistinct | src/main/java/fopbot/KarelWorld.java:142 | the ten decimal digits are pairwise distinct |
| JavaText.IdsBelowHolds | src/main/java/fopbot/KarelWorld.java:140-147 | every counter value below robotCount has its id among the ids handed out |
| JavaText.IdIndex | src/main/java/fopbot/KarelWorld.java:140-147 | every id handed out is the rendering of one counter value below robotCount |
| JavaText.NextIdIsNew | src/main/java/fopbot/KarelWorld.java:140-147 | the next id is not among those already handed out, so addRobot never reuses a trace key |
| JavaText.IntSucc | src/main/java/fopbot/Transition.java:96 | int ++: v+1 below Integer.MAX_VALUE, and wraps to MIN_VALUE at MAX_VALUE |
| JavaText.IntPred | src/main/java/fopbot/Robot.java:252 | int --: v-1 above MIN_VALUE, and wraps to MAX_VALUE at MIN_VALUE |
| JavaText.PredUndoesSucc | src/main/java/fopbot/Transition.java:96 | decrementing undoes incrementing, across the wrap too |
| JavaText.IntAdd | src/main/java/fopbot/impl/CoinStack.java:14-16 | int +: the exact sum when it fits, otherwise the sum shifted by 2^32 back into range |
| JavaText.IntSub | src/main/java/fopbot/impl/CoinStack.java:18-20 | int -: the exact difference when it fits, otherwise shifted by 2^32 back into range |
| JavaText.SubUndoesAdd | src/main/java/fopbot/impl/CoinStack.java:14-20 | subtracting n after adding n gives back the original value, whatever wraps |
| JavaText.AddOneIsSucc | src/main/java/fopbot/impl/CoinStack.java:14-20 | adding or subtracting 1 agrees with ++ and -- |
| Lists.IndexOf | src/fopbot/KarelWorld.java:243-251 | the first position holding e, or none iff e is absent |
| Lists.RemoveFirstRemovesOne | src/main/java/fopbot/impl/AbstractRobot.java:113-120 | Collection.remove(Object) takes away exactly one occurrence when there is one (as a multiset) and nothing otherwise |
| Lists.RemoveFirstOfSingle | src/main/java/fopbot/impl/AbstractRobot.java:113-120 | when e occurs at most once, no occurrence is left after removing it |
| Lists.AppendedOnce | src/main/java/fopbot/KarelWorld.java:704-708 | a newly appended element is found at the end and occurs once |
| FieldEntities.FirstCoin | src/main/java/fopbot/KarelWorld.java:427-443 | the position of the first Coin entity the iterator meets, or none iff the field has no coin |
| FieldEntities.FindFirstCoin | src/main/java/fopbot/KarelWorld.java:514-521 | putCoins' loop over the field's entities stops at the first Coin, so it finds exactly that position, or none when the field has no coin |
| FieldEntities.WithoutRobot | src/main/java/fopbot/KarelWorld.java:705 | removeIf(e == robot): no entry of the robot is left, every other entity stays |
| FieldEntities.CountConcat | src/main/java/fopbot/KarelWorld.java:190-195 | counts of matching entities add up over concatenated lists |
| FieldEntities.CountPositiveIffHas | src/main/java/fopbot/KarelWorld.java:346-361 | some entity matches (the anyMatch queries) iff the count of matches is positive |
| FieldEntities.CountSplit | src/main/java/fopbot/KarelWorld.java:427-443 | the count splits around any position |
| FieldEntities.CountUpdate | src/main/java/fopbot/KarelWorld.java:432-434 | replacing one entity changes the count by the old and new entity's contribution only |
| FieldEntities.CountRemove | src/main/java/fopbot/KarelWorld.java:435-436 | removing one entity lowers the count by its contribution |
| FieldEntities.CountAppend | src/main/java/fopbot/KarelWorld.java:523-525 | appending one entity raises the count by its contribution |
| FieldEntities.CountWithoutRobot | src/main/java/fopbot/KarelWorld.java:704-708 | removing a robot leaves the counts of coins, blocks and walls unchanged |
| FieldEntities.RelocateKeepsFieldValid | src/main/java/fopbot/KarelWorld.java:704-708 | moving a robot between fields keeps each field at no more than one coin pile (count at least 1), one block and one wall per orientation |
| FieldEntities.OtherRobotIgnoresRelocation | src/main/java/fopbot/KarelWorld.java:334-337 | moving robot r into or out of a field does not change whether a robot other than r is there |
| FieldEntities.RemovedOnlyCoin | src/main/java/fopbot/KarelWorld.java:435-436 | removing the coin pile of a valid field leaves no coin in it |
| FieldEntities.RemovedKeepsFieldValid | src/main/java/fopbot/KarelWorld.java:435-436 | removing any entity keeps a field valid |
| FieldEntities.RecountedCoin | src/main/java/fopbot/KarelWorld.java:432-434 | setting the pile's count to n >= 1 keeps the field valid and makes its coin total n |
| FieldEntities.AppendedNewKind | src/main/java/fopbot/KarelWorld.java:451-459 | adding a coin pile, block or wall of a kind the field lacks keeps it valid |
| FieldEntities.WithBlockIdempotent | src/main/java/fopbot/KarelWorld.java:451-459 | placing a block twice is the same as once, a block is then present, and the field stays valid |
| FieldEntities.WithWallIdempotent | src/main/java/fopbot/KarelWorld.java:488-496 | placing a wall twice is the same as once, the wall is present, the other orientation is untouched, and the field stays valid |
| Transitions.StepRunConsecutive | src/main/java/fopbot/Transition.java:72-96 | k transitions created without wrap-around get the steps start, start+1, ..., start+k-1 |
| Transitions.StepRunIncreasing | src/main/java/fopbot/Transition.java:72-96 | below the wrap, steps are unique and strictly increasing in creation order |
| Transitions.StepRunWraps | src/main/java/fopbot/Transition.java:96 | after Integer.MAX_VALUE the next step is Integer.MIN_VALUE |
| Transitions.StepCounter.constructor | src/main/java/fopbot/Transition.java:72 | the counter starts at 0 with nothing issued |
| Transitions.StepCounter.NewTransition | src/main/java/fopbot/Transition.java:93-97 | the transition takes the current step, the given action and robot copy; the counter is post-incremented (wrapping); steps issued stay increasing while below MAX_VALUE |
| Karel.RobotTrace.constructor | src/main/java/fopbot/RobotTrace.java:34-35 | a new trace has no transitions |
| Karel.RobotTrace.Copy | src/main/java/fopbot/RobotTrace.java:27-29 | the copy has the same transitions in the same order, in a new object |
| Karel.RobotTrace.SetTransitions | src/main/java/fopbot/RobotTrace.java:47-49 | the transitions are replaced by the given list |
| Karel.RobotTrace.Trace | src/main/java/fopbot/RobotTrace.java:66-69 | exactly one transition (current step, action, robot copy) is appended, then the global limit check decides the outcome, so the entry stays even when the check throws |
| Karel.KarelWorld.constructor | src/main/java/fopbot/KarelWorld.java:115-133 | every field is empty, robotCount 0, no traces, action limit -1, delay 100 |
| Karel.KarelWorld.Create | src/main/java/fopbot/KarelWorld.java:115-120 | width < 1 or height < 1 throws; otherwise a fresh valid world of that size |
| Karel.KarelWorld.CheckXCoordinate | src/main/java/fopbot/KarelWorld.java:167-171 | throws iff x is outside [0, width-1] |
| Karel.KarelWorld.CheckYCoordinate | src/main/java/fopbot/KarelWorld.java:179-183 | throws iff y is outside [0, height-1] |
| Karel.KarelWorld.CheckNumberOfCoins | src/main/java/fopbot/KarelWorld.java:155-159 | throws iff the count is negative |
| Karel.KarelWorld.FrontClearAt | src/main/java/fopbot/Robot.java:590-644 | the front is clear iff the next field is in the world, holds no block, and no wall lies between the two fields |
| Karel.KarelWorld.IsBlockInField | src/main/java/fopbot/KarelWorld.java:346-349 | true iff a block entity is in the field, which for a valid world means exactly one |
| Karel.KarelWorld.IsWallInField | src/main/java/fopbot/KarelWorld.java:414-417 | true iff a wall of that orientation is in the field |
| Karel.KarelWorld.IsCoinInField | src/main/java/fopbot/KarelWorld.java:358-361 | true iff the field holds at least one coin, so false means its coins are 0; true means exactly one coin pile | |
| Karel.KarelWorld.IsAnotherRobotInField | src/main/java/fopbot/KarelWorld.java:334-337 | true iff a robot entity other than the given robot is in the field |
| Karel.KarelWorld.HorizontalWallBlocks | src/main/java/fopbot/Robot.java:602-624 | a horizontal wall at (x,y) blocks UP from (x,y) and DOWN from (x,y+1) |
| Karel.KarelWorld.VerticalWallBlocks | src/main/java/fopbot/Robot.java:613-635 | a vertical wall at (x,y) blocks RIGHT from (x,y) and LEFT from (x+1,y) |
| Karel.KarelWorld.AddRobot | src/main/java/fopbot/KarelWorld.java:140-147 | an in-bounds robot joins its field, gets id robotCount (then robotCount+1) and a fresh empty trace under that id; out of bounds throws and changes nothing |
| Karel.KarelWorld.PickCoin | src/main/java/fopbot/KarelWorld.java:427-443 | true iff the field held a coin; the field's coins then drop by one, and the pile is gone iff it held one; false leaves the field unchanged; other fields never change |
| Karel.KarelWorld.PutCoins | src/main/java/fopbot/KarelWorld.java:506-526 | invalid x, invalid y, negative count and count 0 each throw their own error and change nothing; otherwise the field's coins rise by exactly n, with still one pile |
| Karel.KarelWorld.PlaceBlock | src/main/java/fopbot/KarelWorld.java:451-459 | invalid coordinates throw; otherwise the field has a block, added only if it had none |
| Karel.KarelWorld.PlaceWall | src/main/java/fopbot/KarelWorld.java:488-496 | invalid coordinates throw; otherwise the field has a wall of that orientation, added only if it had none |
| Karel.KarelWorld.PlaceHorizontalWall | src/main/java/fopbot/KarelWorld.java:467-469 | placeWall with horizontal = true |
| Karel.KarelWorld.PlaceVerticalWall | src/main/java/fopbot/KarelWorld.java:477-479 | placeWall with horizontal = false |
| Karel.KarelWorld.Reset | src/main/java/fopbot/KarelWorld.java:531-536 | every field is empty afterwards |
| Karel.KarelWorld.UpdateRobotField | src/main/java/fopbot/KarelWorld.java:704-708 | when the robot was in the old field it leaves it and joins its current field; otherwise no field changes |
| Karel.KarelWorld.CheckActionLimit | src/main/java/fopbot/KarelWorld.java:821-832 | throws iff the limit is >= 0 and the summed trace lengths reach it |
| Karel.KarelWorld.SetActionLimit | src/main/java/fopbot/KarelWorld.java:811-813 | the limit becomes the argument; nothing else changes |
| Karel.KarelWorld.SetDelay | src/main/java/fopbot/KarelWorld.java:211-213 | the delay becomes the argument; nothing else changes |
| Karel.KarelWorld.Trace | src/main/java/fopbot/KarelWorld.java:668-671 | the robot's own trace gains one transition, every other robot's trace is unchanged, the counter advances by one |
| Karel.KarelWorld.TraceAddsOneAction | src/main/java/fopbot/KarelWorld.java:821-823 | one traced action raises getActionCount by exactly one |
| Karel.SumBelowChanged | src/main/java/fopbot/KarelWorld.java:821-823 | changing one robot's trace length changes the summed count by exactly that difference |
| Karel.KarelWorld.ActionCount | src/main/java/fopbot/KarelWorld.java:821-823 | getActionCount: at least as large as any robot's trace length, and 0 iff every trace is empty |
| Karel.SumBelowBounds | src/main/java/fopbot/KarelWorld.java:821-823 | the summed trace lengths bound each robot's length, and are 0 iff every length is 0 |
| Karel.Robot.Copy | src/main/java/fopbot/Robot.java:137-146 | the copy in a transition has the robot's x, y, direction, coins, id, image id and off state |
| Karel.Robot.Init | src/main/java/fopbot/Robot.java:119-124 | the fields of a new robot: the given position, direction and coins, no id, on |
| Karel.Robot.Create | src/main/java/fopbot/Robot.java:119-130 | invalid x, invalid y or negative coins throw and change nothing; otherwise the robot is added to the world with the next id |
| Karel.Robot.CreateInGlobal | src/main/java/fopbot/Robot.java:78-89 | the global-world constructors: without a global world they fail; otherwise invalid x, invalid y and negative coins throw their own errors and leave the robot count, traces and fields unchanged; success gives a fresh robot at (x,y) with the given direction and coins, on, with id robotCount, which then rises by one, an empty trace, and its entry appended to field (x,y) |
| Karel.Robot.FrontClearIff | src/main/java/fopbot/Robot.java:590-644 | isFrontClear is true iff the field ahead is in the world, holds no block, and no wall lies between the two fields |
| Karel.Robot.IsOnACoin | src/main/java/fopbot/Robot.java:423-425 | true iff the robot's field holds at least one coin |
| Karel.Robot.IsOnAnotherRobot | src/main/java/fopbot/Robot.java:445-447 | true iff a robot other than this one is listed in its field |
| Karel.Robot.TurnLeft | src/main/java/fopbot/Robot.java:168-195 | traced first; a robot that is on and within the limit turns UP to LEFT to DOWN to RIGHT to UP; off, it keeps its direction; position, coins and on-state never change |
| Karel.Robot.TurnOff | src/main/java/fopbot/Robot.java:382-386 | traced, then off (unless the limit check throws first) |
| Karel.Robot.Crash | src/main/java/fopbot/Robot.java:393-397 | turnOff's TURN_OFF entry is traced and crash always throws: "Robot crashed!" with the robot off when the limit check passes, otherwise the limit error with the robot unchanged |
| Karel.Robot.SetXRobot | src/main/java/fopbot/Robot.java:508-521 | the x check fails or the robot is off: nothing changes; otherwise x is set and the robot's field entry follows |
| Karel.Robot.SetYRobot | src/main/java/fopbot/Robot.java:534-551 | the same for y |
| Karel.Robot.Move | src/main/java/fopbot/Robot.java:203-239 | one MOVE entry is traced first; off: nothing else changes; blocked front: it throws; it throws RobotCrashed, is turned off and has a second TURN_OFF entry traced exactly when the action limit allows; otherwise one step by (dx,dy), with the robot's entry moved to its new field |
| Karel.Robot.CrashOrStep | src/main/java/fopbot/Robot.java:209-231 | a blocked front crashes (TURN_OFF traced) without moving; a clear one steps without tracing |
| Karel.Robot.StepClear | src/main/java/fopbot/Robot.java:213-236 | with a clear front: one step by the direction's offsets, nothing traced, the field entry moved with the robot |
| Karel.Robot.StepForward | src/main/java/fopbot/Robot.java:216-236 | position shifts by the direction's offsets and the field entry is relocated |
| Karel.Robot.PutCoin | src/main/java/fopbot/Robot.java:246-258 | one PUT_COIN entry traced first; off: nothing else changes; with coins: the robot loses one and its field gains one; with none: it throws, keeping its coins, and it throws RobotCrashed, is turned off and has a TURN_OFF entry traced exactly when the action limit allows |
| Karel.Robot.DropOrCrash | src/main/java/fopbot/Robot.java:251-256 | at least one coin: drop; none: crash with coins unchanged |
| Karel.Robot.Drop | src/main/java/fopbot/Robot.java:252-253 | the robot's coins drop by one and its field's coins rise by one |
| Karel.Robot.PickCoin | src/main/java/fopbot/Robot.java:265-276 | one PICK_COIN entry traced first; off: nothing else changes; a coin in the field: robot +1, field -1; none: it throws with coins and field unchanged, and it throws RobotCrashed, is turned off and has a TURN_OFF entry traced exactly when the action limit allows |
| Karel.Robot.TakeOrCrash | src/main/java/fopbot/Robot.java:270-274 | a coin in the field is taken (robot +1, field -1); otherwise a crash that leaves coins and fields unchanged |
| Karel.Robot.TryTake | src/main/java/fopbot/Robot.java:270-271 | takes a coin iff the field had one, and reports whether it did |
| Karel.Robot.SetNumberOfCoins | src/main/java/fopbot/Robot.java:311-314 | one SET_NUMBER_OF_COINS entry traced; the coins become the argument unless the limit check throws |
| Karel.Robot.SetX | src/main/java/fopbot/Robot.java:498-501 | traced as SET_X; fails iff the limit or the x check fails; off or failing keeps x |
| Karel.Robot.SetY | src/main/java/fopbot/Robot.java:524-527 | traced as SET_Y; fails iff the limit or the y check fails; off or failing keeps y |
| Karel.Robot.SetField | src/main/java/fopbot/Robot.java:559-582 | SET_X and then (when the limit allows) SET_Y are traced, both of them whenever the limit allows, even for a position outside the world; succeeds iff the limit holds and (x,y) is in the world; a turned-off or failing robot does not move |
| Karel.Robot.SetFieldAfterFirstTrace | src/main/java/fopbot/Robot.java:559-582 | the rest of setField after its first trace entry: the SET_Y entry, the checks, and the move when on and in the world |
| Karel.Robot.MoveToField | src/main/java/fopbot/Robot.java:559-582 | the x check, then the y check; when both pass and the robot is on, it stands at (x,y) and its entry moves to the new field |
| Karel.Robot.PlaceAt | src/main/java/fopbot/Robot.java:559-582 | an on robot is put at an in-world (x,y) and its field entry relocated |
| Karel.GlobalWorld.constructor | src/main/java/fopbot/World.java:11-16 | before anything runs there is no world, and isGlobal is false |
| Karel.GlobalWorld.LimitOutcome | src/main/java/fopbot/RobotTrace.java:68 | without a world getGlobalWorld() is null and the check throws; otherwise it is that world's checkActionLimit |
| Karel.GlobalWorld.CheckActionLimit | src/main/java/fopbot/RobotTrace.java:68 | the same outcome, as a call |
| Karel.GlobalWorld.IsGlobal | src/main/java/fopbot/World.java:173-175 | true iff a world exists, so false until the first world is created |
| Karel.GlobalWorld.GetGlobalWorld | src/main/java/fopbot/World.java:182-184 | the current world, or null before any is created |
| Karel.GlobalWorld.SetSize | src/main/java/fopbot/World.java:63-70 | a size below 1 throws and keeps the old world; otherwise a fresh empty world of that size replaces it, keeps the previous delay, has no traces and no action limit (-1), and isGlobal becomes true |
| Karel.GlobalWorld.EnsureWorld | src/main/java/fopbot/World.java:37-42 | an existing world stays; otherwise a fresh 10 by 10 world is created |
| Karel.GlobalWorld.SetVisible | src/main/java/fopbot/World.java:24-29 | setVisible(true) creates the world when there is none; setVisible(false) without a world fails with a null dereference |
| Karel.GlobalWorld.GetWidth | src/main/java/fopbot/World.java:50-55 | the world's width, 10 when it had to be created |
| Karel.GlobalWorld.GetHeight | src/main/java/fopbot/World.java:37-42 | the world's height, 10 when it had to be created |
| Karel.GlobalWorld.SetDelay | src/main/java/fopbot/World.java:77-82 | the (possibly created) world's delay becomes d |
| Karel.GlobalWorld.GetDelay | src/main/java/fopbot/World.java:89-94 | the (possibly created) world's delay, so setDelay(d) then getDelay() gives d |
| Karel.GlobalWorld.Reset | src/main/java/fopbot/World.java:99-104 | the (possibly created) world is emptied |
| Karel.GlobalWorld.PlaceHorizontalWall | src/main/java/fopbot/World.java:112-117 | without a world a fresh 10 by 10 world is created first; invalid x throws InvalidX and then invalid y throws InvalidY, and no field changes; otherwise field (x,y) keeps its entities and gains a horizontal wall only if it had none, so isWallInField(x, y, true) holds; every other field is unchanged |
| Karel.GlobalWorld.PlaceVerticalWall | src/main/java/fopbot/World.java:125-130 | without a world a fresh 10 by 10 world is created first; invalid x throws InvalidX and then invalid y throws InvalidY, and no field changes; otherwise field (x,y) keeps its entities and gains a vertical wall only if it had none, so isWallInField(x, y, false) holds; every other field is unchanged |
| Karel.GlobalWorld.PlaceBlock | src/main/java/fopbot/World.java:138-143 | without a world a fresh 10 by 10 world is created first; invalid x throws InvalidX and then invalid y throws InvalidY, and no field changes; otherwise field (x,y) keeps its entities and gains a block only if it had none, so isBlockInField holds; every other field is unchanged |
| Karel.GlobalWorld.PutCoins | src/main/java/fopbot/World.java:152-157 | without a world a fresh 10 by 10 world is created first; invalid x, invalid y, a negative count and a count of 0 throw InvalidX, InvalidY, NegativeCoinCount and CoinCountBelowOne, and no field changes; otherwise the field's coins rise by exactly n, added to its first pile or as a new pile, and every other field is unchanged |
| LegacyKarel.CheckXCoordinate | src/fopbot/KarelWorld.java:553-557 | throws iff x is outside the global world's width, not this world's |
| LegacyKarel.CheckYCoordinate | src/fopbot/KarelWorld.java:564-568 | throws iff y is outside the global world's height |
| LegacyKarel.CheckNumberOfCoins | src/fopbot/KarelWorld.java:575-579 | throws iff the count is negative |
| LegacyKarel.RelocateFirstKeepsFieldValid | src/fopbot/KarelWorld.java:243-251 | moving the robot's first entry between fields keeps them valid |
| LegacyKarel.TwoAppendsKeepPrefix | src/fopbot/KarelWorld.java:395-401 | helper for the snapshot list: a list grown by two appends keeps its earlier elements in front and ends with the second |
| LegacyKarel.Placements | src/fopbot/KarelWorld.java:103-114 | each entity of a field paired with that field's coordinates, in list order |
| LegacyKarel.CopyOf | src/fopbot/KarelWorld.java:356-390 | one copy per coin, block or wall entity, and per robot that is a Robot |
| LegacyKarel.CopyAll | src/fopbot/KarelWorld.java:356-390 | the copy loop yields exactly the specified snapshot |
| LegacyKarel.CopiesOnePerEntity | src/fopbot/KarelWorld.java:356-390 | the snapshot holds exactly one copy per entity, at the entity's position |
| LegacyKarel.KarelWorld.constructor | src/fopbot/KarelWorld.java:39-59 | every field is empty, robotCount 0, delay 100, no snapshots |
| LegacyKarel.KarelWorld.Create | src/fopbot/KarelWorld.java:39-42 | width < 1 or height < 1 throws; otherwise a fresh valid world |
| LegacyKarel.KarelWorld.SetDelay | src/fopbot/KarelWorld.java:80-82 | the delay becomes d and nothing else changes |
| LegacyKarel.KarelWorld.FrontClearAt | src/fopbot/Robot.java:430-483 | the same border, block and wall rules as the newer robot, over entities[x][y] |
| LegacyKarel.KarelWorld.IsBlockInField | src/fopbot/KarelWorld.java:121-128 | true iff a block entity is in entities[x][y], which for a valid world means exactly one |
| LegacyKarel.KarelWorld.IsWallInField | src/fopbot/KarelWorld.java:137-147 | true iff a wall of that orientation is in entities[x][y] |
| LegacyKarel.KarelWorld.IsCoinInField | src/fopbot/KarelWorld.java:154-161 | true iff the field holds at least one coin, so false means its coins are 0; true means exactly one coin pile | |
| LegacyKarel.KarelWorld.IsAnotherRobotInField | src/fopbot/KarelWorld.java:169-179 | true iff a robot other than the given one is in entities[x][y] |
| LegacyKarel.KarelWorld.HorizontalWallBlocks | src/fopbot/Robot.java:430-483 | a horizontal wall at (x,y) blocks UP from (x,y) and DOWN from (x,y+1) |
| LegacyKarel.KarelWorld.VerticalWallBlocks | src/fopbot/Robot.java:430-483 | a vertical wall at (x,y) blocks RIGHT from (x,y) and LEFT from (x+1,y) |
| LegacyKarel.KarelWorld.ColumnEntitiesExact | src/fopbot/KarelWorld.java:103-114 | a placed entity is in column i's part of the list iff it stands in that column below row n |
| LegacyKarel.KarelWorld.EntitiesBelowExact | src/fopbot/KarelWorld.java:103-114 | a placed entity is in the first m columns' part iff it stands there |
| LegacyKarel.KarelWorld.AllFieldEntitiesExact | src/fopbot/KarelWorld.java:103-114 | getAllFieldEntities lists exactly the entities of the fields, each with its coordinates |
| LegacyKarel.KarelWorld.GetAllFieldEntities | src/fopbot/KarelWorld.java:103-114 | the nested loops build exactly that list |
| LegacyKarel.KarelWorld.SaveEntityState | src/fopbot/KarelWorld.java:356-390 | exactly one snapshot of all entities is appended |
| LegacyKarel.KarelWorld.SnapshotOnePerEntity | src/fopbot/KarelWorld.java:356-390 | the snapshot has one entry per listed entity, in order, each the copy of that entity |
| LegacyKarel.KarelWorld.TriggerUpdate | src/fopbot/KarelWorld.java:395-401 | every triggerUpdate appends exactly one snapshot |
| LegacyKarel.KarelWorld.PickCoin | src/fopbot/KarelWorld.java:187-203 | true iff a coin is present; the count drops by one or the pile goes at count 1, with a snapshot; false or off-grid changes nothing |
| LegacyKarel.KarelWorld.TakeCoinAt | src/fopbot/KarelWorld.java:191-199 | taking from the pile at position k: one coin fewer, the pile gone iff it held one |
| LegacyKarel.KarelWorld.PutCoins | src/fopbot/KarelWorld.java:212-234 | the global checks, then n < 1 throws, then the field's coins rise by n (one pile) and one snapshot is appended |
| LegacyKarel.KarelWorld.AddCoins | src/fopbot/KarelWorld.java:220-233 | adds n to the existing pile or appends a pile of n |
| LegacyKarel.KarelWorld.UpdateRobotField | src/fopbot/KarelWorld.java:243-251 | only when the robot is in the old field: its first entry leaves it and joins the current field |
| LegacyKarel.KarelWorld.MoveRobotEntity | src/fopbot/KarelWorld.java:245-248 | the entry at index i moves to the robot's current field, which must be in the arrays |
| LegacyKarel.KarelWorld.PlaceBlock | src/fopbot/KarelWorld.java:259-272 | the global checks, then never a second block; a snapshot only when one is added |
| LegacyKarel.KarelWorld.PlaceWall | src/fopbot/KarelWorld.java:296-312 | the global checks, then never a second wall of that orientation; a snapshot only when one is added |
| LegacyKarel.KarelWorld.PlaceHorizontalWall | src/fopbot/KarelWorld.java:320-322 | placeWall with horizontal = true |
| LegacyKarel.KarelWorld.PlaceVerticalWall | src/fopbot/KarelWorld.java:330-332 | placeWall with horizontal = false |
| LegacyKarel.KarelWorld.AddRobot | src/fopbot/KarelWorld.java:279-286 | the robot joins its field, gets id robotCount and robotCount rises by exactly one |
| LegacyKarel.Robot.FrontClear | src/fopbot/Robot.java:430-483 | throws only with the robot outside the world; inside it, true iff the field ahead is in the world, holds no block, and no wall lies between |
| LegacyKarel.KarelWorld.Reset | src/fopbot/KarelWorld.java:421-428 | every field's list is empty and one empty snapshot is appended |
| LegacyKarel.KarelWorld.EmptyWorldHasNoEntities | src/fopbot/KarelWorld.java:39-59 | a world whose fields are empty lists no entities and snapshots nothing |
| LegacyKarel.Robot.Init | src/fopbot/Robot.java:77-82 | the given position, direction and coins, no id, on |
| LegacyKarel.Robot.Create | src/fopbot/Robot.java:77-88 | the global coordinate checks, then the coin check, then addRobot; any failure changes nothing |
| LegacyKarel.Robot.TurnOff | src/fopbot/Robot.java:288-291 | off, with one snapshot |
| LegacyKarel.Robot.TurnLeft | src/fopbot/Robot.java:108-132 | UP to LEFT to DOWN to RIGHT to UP with a snapshot; no change when off |
| LegacyKarel.Robot.SetX | src/fopbot/Robot.java:358-377 | checks x first; off or invalid keeps the position; otherwise x is set and the field entry follows |
| LegacyKarel.Robot.SetY | src/fopbot/Robot.java:382-399 | checks y first; off or invalid keeps the position; otherwise y is set and the field entry follows |
| LegacyKarel.Robot.SetField | src/fopbot/Robot.java:404-424 | both coordinates are checked before the off check; a turned-off robot does not move |
| LegacyKarel.Robot.GoTo | src/fopbot/Robot.java:365-376 | the position is set, the field entry relocated and one snapshot appended |
| LegacyKarel.Robot.Move | src/fopbot/Robot.java:137-172 | off: no change; blocked front: off and thrown; otherwise exactly one coordinate changes by one, in the direction faced |
| LegacyKarel.Robot.Forward | src/fopbot/Robot.java:151-164 | the setX/setY of the direction faced, with its own checks |
| LegacyKarel.Robot.Step | src/fopbot/Robot.java:148-171 | the step plus the second updateRobotField, which changes nothing when the robot stood once in its field |
| LegacyKarel.Robot.Follow | src/fopbot/Robot.java:169-170 | the second field update and its snapshot |
| LegacyKarel.Robot.PutCoin | src/fopbot/Robot.java:177-190 | off: no change; 0 coins: off and thrown; otherwise one coin moves to the field |
| LegacyKarel.Robot.PickCoin | src/fopbot/Robot.java:195-207 | a coin is taken iff the field had one; a failure leaves the coin count as it was (increment then decrement), turns off and throws |
| ImplGrid.Ordinal | src/main/java/fopbot/impl/Grid.java:76-79 | each side indexes one of the four wall flags |
| ImplGrid.CheckCoords | src/main/java/fopbot/impl/Grid.java:94-101 | passes iff 0 <= x < width and 0 <= y < height; x is checked first |
| ImplGrid.Grid.constructor | src/main/java/fopbot/impl/Grid.java:15-25 | a cell for every (x,y), no walls, no entities, so symmetric |
| ImplGrid.Grid.Create | src/main/java/fopbot/impl/Grid.java:15-25 | a negative size fails (array allocation); otherwise a fresh empty symmetric grid |
| ImplGrid.Grid.HasWall | src/main/java/fopbot/impl/Grid.java:71-74 | out of range throws; otherwise the wall flag of that side |
| ImplGrid.Grid.GetEntities | src/main/java/fopbot/impl/Grid.java:89-92 | out of range throws; otherwise the cell's collection |
| ImplGrid.Grid.SetWall | src/main/java/fopbot/impl/Grid.java:76-79 | out of range throws and changes nothing; otherwise exactly that one flag is set |
| ImplGrid.Grid.SetNorthWall | src/main/java/fopbot/impl/Grid.java:31-36 | north of (x,y) set and, when y > 0, south of (x,y-1); no other flag changes; symmetry is kept |
| ImplGrid.Grid.SetSouthWall | src/main/java/fopbot/impl/Grid.java:42-47 | south of (x,y) set and, when y < height-1, north of (x,y+1); symmetry is kept |
| ImplGrid.Grid.SetEastWall | src/main/java/fopbot/impl/Grid.java:53-58 | east of (x,y) set and, when x < width-1, west of (x+1,y); symmetry is kept |
| ImplGrid.Grid.SetWestWall | src/main/java/fopbot/impl/Grid.java:64-69 | west of (x,y) set and, when x > 0, east of (x-1,y); symmetry is kept |
| ImplGrid.SymmetricWallsAgree | src/main/java/fopbot/impl/Grid.java:31-69 | in a symmetric grid, hasSouthWall(x,y) equals hasNorthWall(x,y+1) |
| LegacyGrid.Grid.constructor | src/foshbot/grid/Grid.java:15-25 | a cell for every (x,y), no walls, an empty entity set |
| LegacyGrid.Grid.Create | src/foshbot/grid/Grid.java:15-25 | a negative size fails; otherwise a fresh empty symmetric grid |
| LegacyGrid.Grid.HasWall | src/foshbot/grid/Grid.java:71-74 | out of range throws; otherwise the wall flag |
| LegacyGrid.Grid.GetEntities | src/foshbot/grid/Grid.java:89-92 | out of range throws; otherwise the cell's set |
| LegacyGrid.Grid.SetWall | src/foshbot/grid/Grid.java:76-79 | exactly one flag set, or a throw and no change |
| LegacyGrid.Grid.SetNorthWall | src/foshbot/grid/Grid.java:31-36 | mirrors onto south of (x,y-1) when y > 0; symmetry is kept |
| LegacyGrid.Grid.SetSouthWall | src/foshbot/grid/Grid.java:42-47 | as written: mirrors onto (x,y+1) only when y < height-2, so at y = height-2 the neighbour is left alone |
| LegacyGrid.Grid.SetSouthWallMirrored | src/foshbot/grid/Grid.java:42-47 | corrected: mirrors whenever the neighbour exists, and keeps symmetry |
| LegacyGrid.Grid.SetEastWall | src/foshbot/grid/Grid.java:53-58 | as written: mirrors onto (x+1,y) only when x < width-2 |
| LegacyGrid.Grid.SetEastWallMirrored | src/foshbot/grid/Grid.java:53-58 | corrected: mirrors whenever the neighbour exists, and keeps symmetry |
| LegacyGrid.Grid.SetWestWall | src/foshbot/grid/Grid.java:64-69 | mirrors onto east of (x-1,y) when x > 0; symmetry is kept |
| LegacyGrid.SouthWallSeenFromOneSide | src/foshbot/grid/Grid.java:42-47 | in a 1 by 2 grid, setSouthWall(0,0) leaves the wall visible from one side only |
| LegacyGrid.EastWallSeenFromOneSide | src/foshbot/grid/Grid.java:53-58 | in a 2 by 1 grid, setEastWall(0,0) leaves the wall visible from one side only |
| CoinStacks.CoinStack.constructor | src/main/java/fopbot/impl/CoinStack.java:9-12 | a new stack holds 0 coins |
| CoinStacks.CoinStack.PutCoins | src/main/java/fopbot/impl/CoinStack.java:14-16 | the count rises by exactly n (int arithmetic) |
| CoinStacks.CoinStack.PickCoins | src/main/java/fopbot/impl/CoinStack.java:18-20 | the count falls by exactly n, with no lower bound |
| CoinStacks.PutThenPick | src/main/java/fopbot/impl/CoinStack.java:14-20 | putCoins(n) then pickCoins(n) restores the count |
| ImplWorld.FirstStackIndex | src/main/java/fopbot/impl/AbstractWorld.java:42-48 | the first coin stack of the cell, or none iff the cell has no stack |
| ImplWorld.OwnEntryIgnored | src/main/java/fopbot/impl/AbstractWorld.java:87-92 | the asking robot's own entries never change whether another robot is present |
| ImplWorld.HeadlessWorld.constructor | src/main/java/fopbot/headless/HeadlessWorld.java:13-15 | a world over the given grid |
| ImplWorld.HeadlessWorld.StackAt | src/main/java/fopbot/impl/AbstractWorld.java:42-48 | getCoinStack: a stack of the cell, and none iff the position is outside the grid or the cell holds no stack |
| ImplWorld.HeadlessWorld.NewCoinStack | src/main/java/fopbot/headless/HeadlessWorld.java:18-20 | a fresh stack of 0 coins at (x,y), not added to any cell |
| ImplWorld.HeadlessWorld.PutCoins | src/main/java/fopbot/impl/AbstractWorld.java:35-40 | coordinates checked; the first stack gains n coins; with no stack, the new one is not added, so the cell and hasCoinInField stay as they were |
| ImplWorld.HeadlessWorld.PickCoin | src/main/java/fopbot/impl/AbstractWorld.java:51-64 | true iff a stack exists with a count other than 0; then it loses exactly one coin; otherwise nothing changes |
| ImplWorld.HeadlessWorld.HasCoinInField | src/main/java/fopbot/impl/AbstractWorld.java:81-84 | true iff the first stack holds more than 0 coins |
| ImplWorld.HeadlessWorld.HasBlockInField | src/main/java/fopbot/impl/AbstractWorld.java:69-73 | true iff a block is in the cell |
| ImplWorld.HeadlessWorld.FieldHasWallInDirection | src/main/java/fopbot/impl/AbstractWorld.java:76-78 | out of range throws; otherwise the wall flag of that side of the cell |
| ImplWorld.HeadlessWorld.HasAnotherRobotInField | src/main/java/fopbot/impl/AbstractWorld.java:87-92 | true iff a robot other than the given one is in the cell |
| ImplWorld.HeadlessWorld.PutBlock | src/main/java/fopbot/headless/HeadlessWorld.java:23-25 | one more block is appended, even when there is one already; hasBlockInField then holds |
| ImplWorld.HeadlessWorld.Reset | src/main/java/fopbot/impl/AbstractWorld.java:95-101 | every cell's collection is empty |
| ImplWorld.HeadlessWorld.IsRunning | src/main/java/fopbot/headless/HeadlessWorld.java:36-38 | always true |
| ImplWorld.HeadlessWorld.Start | src/main/java/fopbot/headless/HeadlessWorld.java:33 | changes nothing; the world is running |
| ImplWorld.HeadlessWorld.Stop | src/main/java/fopbot/headless/HeadlessWorld.java:41 | changes nothing; the world is still running |
| ImplWorld.PickAgreesWithHasCoin | src/main/java/fopbot/impl/AbstractWorld.java:51-84 | hasCoinInField equals what pickCoin would answer, except for a stack with a negative count |
| ImplRobot.FourLeftTurns | src/main/java/fopbot/impl/AbstractRobot.java:21-40 | NORTH to WEST to SOUTH to EAST to NORTH returns after four turns and not before |
| ImplRobot.OffsetsRotate | src/main/java/fopbot/impl/AbstractRobot.java:134-154 | exactly one offset is non-zero, and a left turn rotates (dx,dy) to (dy,-dx) |
| ImplRobot.Dx | src/main/java/fopbot/impl/AbstractRobot.java:134-143 | getDx: +1 for EAST, -1 for WEST, so non-zero exactly for the horizontal directions |
| ImplRobot.Dy | src/main/java/fopbot/impl/AbstractRobot.java:145-154 | getDy: -1 for NORTH, +1 for SOUTH, so non-zero exactly for the vertical directions |
| ImplRobot.LeftOf | src/main/java/fopbot/impl/AbstractRobot.java:21-40 | turnLeft's table: the new direction's offsets are the old (dx,dy) rotated to (dy,-dx) |
| ImplRobot.Robot.constructor | src/main/java/fopbot/impl/AbstractRobot.java:12-18 | the given position, direction, coins and world; on |
| ImplRobot.Robot.TurnLeft | src/main/java/fopbot/impl/AbstractRobot.java:21-40 | turns when on, no change when off |
| ImplRobot.Robot.IsFrontClear | src/main/java/fopbot/impl/AbstractRobot.java:123-132 | true iff the target cell is in the grid, the current cell has no wall on that side, and the target has no block |
| ImplRobot.Robot.SetField | src/main/java/fopbot/impl/AbstractRobot.java:113-120 | as written: the entry is removed from the new cell (the parameters shadow the fields), so the old cell keeps it |
| ImplRobot.Robot.SetFieldCorrected | src/main/java/fopbot/impl/AbstractRobot.java:113-120 | corrected: leaves the old cell, moves, joins the new one; the robot stays in exactly one cell |
| ImplRobot.Robot.Leave | src/main/java/fopbot/impl/AbstractRobot.java:114 | one entry of the robot leaves the cell; other cells unchanged |
| ImplRobot.Robot.Join | src/main/java/fopbot/impl/AbstractRobot.java:117 | the entry is appended to the cell; other cells unchanged |
| ImplRobot.Robot.Move | src/main/java/fopbot/impl/AbstractRobot.java:43-53 | as written, through setField: off: no change; blocked: "Robot crashed!" thrown, no move, still on; clear: one step by (dx,dy) inside the grid, one entry of the robot is taken from the new cell and one appended there, the old cell keeps its entry, and no other cell changes |
| ImplRobot.Robot.MoveCorrected | src/main/java/fopbot/impl/AbstractRobot.java:43-53 | the same move through the corrected setField: a robot listed in exactly one cell still is, in the new one |
| ImplRobot.Robot.PutCoin | src/main/java/fopbot/impl/AbstractRobot.java:56-67 | off: no change; 0 coins throws "Robot went bankrupt!" and changes nothing; otherwise coins -1 and the cell's existing stack +1 |
| ImplRobot.Robot.PickCoin | src/main/java/fopbot/impl/AbstractRobot.java:70-80 | coins +1 and stack -1 iff world.pickCoin succeeds; otherwise thrown and nothing changes |
| ImplRobot.Robot.TurnOff | src/main/java/fopbot/impl/AbstractRobot.java:93-100 | off, and isTurnedOff holds |
| ImplRobot.Robot.IsNextToACoin | src/main/java/fopbot/impl/AbstractRobot.java:103-105 | hasCoinInField at the robot's cell |
| ImplRobot.Robot.IsNextToARobot | src/main/java/fopbot/impl/AbstractRobot.java:108-110 | hasAnotherRobotInField at the robot's cell, ignoring itself |
| ImplRobot.SetFieldLeavesOldEntry | src/main/java/fopbot/impl/AbstractRobot.java:113-120 | after setField(1,0) from (0,0) the robot is listed in both cells |
| ImplRobot.SetFieldCorrectedKeepsOneEntry | src/main/java/fopbot/impl/AbstractRobot.java:113-120 | the corrected setField leaves the robot listed in the new cell only |
| ImplRobot.MoveLeavesOldEntry | src/main/java/fopbot/impl/AbstractRobot.java:43-53 | move east from (0,0) in a 2 by 1 grid: the robot is listed in both cells afterwards |
| ImplRobot.MoveCorrectedKeepsOneEntry | src/main/java/fopbot/impl/AbstractRobot.java:43-53 | the same move through the corrected setField: the robot is listed in (1,0) only |
| LegacyImplWorld.OwnEntryIgnoredInSet | src/foshbot/impl/AbstractWorld.java:64-69 | the given robot's own entry never counts; any other robot's does |
| LegacyImplWorld.AbstractWorld.constructor | src/foshbot/impl/AbstractWorld.java:11-13 | a world over the given grid |
| LegacyImplWorld.AbstractWorld.StacksIn | src/foshbot/impl/AbstractWorld.java:31-40 | exactly the coin stacks of the cell |
| LegacyImplWorld.AbstractWorld.PutCoins | src/foshbot/impl/AbstractWorld.java:31-40 | coordinates checked; one stack of the cell gains n coins, or the supplied new stack if there is none |
| LegacyImplWorld.AbstractWorld.HasBlockInField | src/foshbot/impl/AbstractWorld.java:45-49 | true iff a block is in the cell |
| LegacyImplWorld.AbstractWorld.HasCoinInField | src/foshbot/impl/AbstractWorld.java:57-61 | true iff any coin stack is in the cell, whatever its count |
| LegacyImplWorld.AbstractWorld.HasAnotherRobotInField | src/foshbot/impl/AbstractWorld.java:64-69 | true iff a robot other than the given one is in the cell |
| LegacyImplWorld.AbstractWorld.Reset | src/foshbot/impl/AbstractWorld.java:72-78 | every cell is cleared |
| LegacyImplWorld.EmptyStackCountsAsCoin | src/foshbot/impl/AbstractWorld.java:57-61 | a cell holding only an empty stack still reports a coin |
| LegacyImplRobot.Robot.constructor | src/foshbot/impl/AbstractRobot.java:12-18 | the given position, direction, coins and world; on |
| LegacyImplRobot.Robot.TurnLeft | src/foshbot/impl/AbstractRobot.java:21-36 | turns even when off (no on-check) |
| LegacyImplRobot.Robot.IsFrontClear | src/foshbot/impl/AbstractRobot.java:102-111 | true iff the target is in the grid, there is no wall on that side, and the target has no block |
| LegacyImplRobot.Robot.Move | src/foshbot/impl/AbstractRobot.java:39-54 | off: no change; blocked: thrown; clear: one step by (dx,dy), the entry moves between cell sets, other cells unchanged |
| LegacyImplRobot.Robot.PutCoin | src/foshbot/impl/AbstractRobot.java:57-59 | does nothing |
| LegacyImplRobot.Robot.PickCoin | src/foshbot/impl/AbstractRobot.java:62-64 | does nothing |
| LegacyImplRobot.Robot.SetField | src/foshbot/impl/AbstractRobot.java:97-99 | does nothing |
| LegacyImplRobot.Robot.TurnOff | src/foshbot/impl/AbstractRobot.java:77-84 | isTurnedOff holds afterwards |
| LegacyImplRobot.Robot.IsNextToACoin | src/foshbot/impl/AbstractRobot.java:87-89 | always false |
| LegacyImplRobot.Robot.IsNextToARobot | src/foshbot/impl/AbstractRobot.java:92-94 | always false |
| Tracing.TracingRobot.StateOf | src/main/java/fopbot/trace/TracingRobot.java:106-109 | the wrapped robot's position, on-state, coins and direction, tagged with the action |
| Tracing.TracingRobot.constructor | src/main/java/fopbot/trace/TracingRobot.java:16-19 | the trace is exactly one SPAWNED state |
| Tracing.TracingRobot.RecordState | src/main/java/fopbot/trace/TracingRobot.java:106-109 | one state is appended at the end |
| Tracing.TracingRobot.TurnLeft | src/main/java/fopbot/trace/TracingRobot.java:22-25 | the robot turns (when on), then one TURNED_LEFT state is appended |
| Tracing.TracingRobot.Move | src/main/java/fopbot/trace/TracingRobot.java:28-31 | when the move throws, nothing is appended; otherwise one MOVED state |
| Tracing.TracingRobot.PutCoin | src/main/java/fopbot/trace/TracingRobot.java:34-37 | nothing appended on a throw, otherwise one PUT_COIN state |
| Tracing.TracingRobot.PickCoin | src/main/java/fopbot/trace/TracingRobot.java:40-43 | nothing appended on a throw, otherwise one PICKED_COIN state |
| Tracing.TracingRobot.TurnOff | src/main/java/fopbot/trace/TracingRobot.java:56-59 | one TURNED_OFF state, showing the robot off |
| Tracing.TracingRobot.SetField | src/main/java/fopbot/trace/TracingRobot.java:87-90 | delegates to the as-written setField: it throws iff the target is outside the grid, and then neither the trace, the robot nor any cell changes; otherwise one SET_FIELD state at the new position is appended, one entry of the robot is taken from the new cell and one appended there, and no other cell changes |
| Tracing.TracingRobot.GetTrace | src/main/java/fopbot/trace/TracingRobot.java:97-104 | the recorded states: never empty, and the first is the SPAWNED state |
| Tracing.TurnThenMove | src/main/java/fopbot/trace/TracingRobot.java:22-31 | two actions append their states in call order, or only the first when the second throws |
| Tracing.TracingWorld.constructor | src/main/java/fopbot/trace/TracingWorld.java:18-20 | no traces yet |
| Tracing.TracingWorld.NewRobot | src/main/java/fopbot/trace/TracingWorld.java:73-77 | the new robot is wrapped in a fresh tracing robot, which is appended to the traces and returned |
| Tracing.TracingWorld.PutCoins | src/main/java/fopbot/trace/TracingWorld.java:58-60 | forwards to the wrapped world; the traces stay |
| Tracing.TracingWorld.PickCoin | src/main/java/fopbot/trace/TracingWorld.java:63-65 | forwards to the wrapped world; the traces stay |
| Tracing.TracingWorld.PutBlock | src/main/java/fopbot/trace/TracingWorld.java:68-70 | forwards to the wrapped world; the traces stay |
| Tracing.TracingWorld.Reset | src/main/java/fopbot/trace/TracingWorld.java:80-82 | forwards to the wrapped world; the traces stay |
| Tracing.TracingWorld.GetTraces | src/main/java/fopbot/trace/TracingWorld.java:99-101 | the tracing robots, each wrapping a robot of this world |
| Tracing.TwoRobotsInOrder | src/main/java/fopbot/trace/TracingWorld.java:73-77 | two new robots are listed in creation order, one entry each |
| HookableMaps.Calls | src/main/java/fopbot/HookableHashMap.java:81 | one hook call per registered hook |
| HookableMaps.CallsAt | src/main/java/fopbot/HookableHashMap.java:81 | the j-th call goes to the j-th hook, in registration order, with (key, value) |
| HookableMaps.CallsAppend | src/main/java/fopbot/HookableHashMap.java:25-27 | a hook added later runs after all earlier ones |
| HookableMaps.PutAllCalls | src/main/java/fopbot/HookableHashMap.java:92-95 | one call per entry and hook |
| HookableMaps.PutAllCallsLayout | src/main/java/fopbot/HookableHashMap.java:92-95 | entry by entry, and within an entry hook by hook |
| HookableMaps.PutAllCallsSnoc | src/main/java/fopbot/HookableHashMap.java:92-95 | one more entry adds its hook calls at the end |
| HookableMaps.Inserted | src/main/java/fopbot/HookableHashMap.java:94 | after putAll every old key and every entry's key is present |
| HookableMaps.InsertedUntouched | src/main/java/fopbot/HookableHashMap.java:94 | a key no entry names keeps its value, and stays absent if absent |
| HookableMaps.InsertedLastWins | src/main/java/fopbot/HookableHashMap.java:94 | a key ends up with the value of its last entry |
| HookableMaps.RunHooks | src/main/java/fopbot/HookableHashMap.java:81 | the forEach loop over the hooks logs exactly their calls, in order |
| HookableMaps.RunPutAllHooks | src/main/java/fopbot/HookableHashMap.java:93 | the nested loops log exactly the putAll calls, in order |
| HookableMaps.HookableHashMap.constructor | src/main/java/fopbot/HookableHashMap.java:16-18 | an empty map with no hooks |
| HookableMaps.HookableHashMap.AddPutHook | src/main/java/fopbot/HookableHashMap.java:25-27 | the hook is appended to the put hooks; nothing else changes |
| HookableMaps.HookableHashMap.AddRemoveHook | src/main/java/fopbot/HookableHashMap.java:34-36 | the hook is appended to the remove hooks; nothing else changes |
| HookableMaps.HookableHashMap.Put | src/main/java/fopbot/HookableHashMap.java:80-83 | every put hook runs in order with (key, value) before the insert; the previous value is returned |
| HookableMaps.HookableHashMap.PutIfAbsent | src/main/java/fopbot/HookableHashMap.java:86-89 | the put hooks run even when the key is present, and a present key is not overwritten |
| HookableMaps.HookableHashMap.PutAll | src/main/java/fopbot/HookableHashMap.java:92-95 | the hooks run for every entry first, then all entries are inserted |
| HookableMaps.HookableHashMap.Remove | src/main/java/fopbot/HookableHashMap.java:98-102 | the key is removed first; a present key then runs every remove hook with the removed value; an absent key with remove hooks throws (null entry value) and changes nothing |
| HookableMaps.HookableHashMap.Get | src/main/java/fopbot/HookableHashMap.java:12 | the stored value, or null when the key is absent |
| HookableMaps.Builder.constructor | src/main/java/fopbot/HookableHashMap.java:44-45 | the builder holds one fresh, empty map |
| HookableMaps.Builder.AddPutHook | src/main/java/fopbot/HookableHashMap.java:53-56 | adds a put hook to the builder's map and returns the builder |
| HookableMaps.Builder.AddRemoveHook | src/main/java/fopbot/HookableHashMap.java:64-67 | adds a remove hook to the builder's map and returns the builder |
| HookableMaps.Builder.Build | src/main/java/fopbot/HookableHashMap.java:74-76 | returns the builder's single map instance |
| HookableMaps.BuildTwice | src/main/java/fopbot/HookableHashMap.java:44-76 | two builds give the same map, carrying both hooks in order and no calls |
| Drawings.DrawingOrder | src/main/java/fopbot/DrawingRegistry.java:64-72 | Wall 0, Robot 1, Coin 2, Block 3, and Integer.MAX_VALUE exactly for everything else |
| Drawings.DrawingOrderInjective | src/main/java/fopbot/DrawingRegistry.java:64-72 | different kinds have different orders |
| Drawings.CompareByDrawingOrder | src/main/java/fopbot/DrawingRegistry.java:45 | negative, zero or positive as the first kind's order is below, equal to or above the second's |
| Drawings.CompareAntisymmetric | src/main/java/fopbot/DrawingRegistry.java:45 | swapping the arguments negates the comparison |
| Drawings.DefaultPaintOrder | src/main/java/fopbot/DrawingRegistry.java:37-45 | walls paint before robots, robots before coins, coins before blocks, blocks before anything else |
| Drawings.NearestMapped | src/main/java/fopbot/DrawingRegistry.java:104-118 | the first class in the chain that has a drawing, or none iff no class has one |
| Drawings.ResolveExact | src/main/java/fopbot/DrawingRegistry.java:105-107 | an exact-class mapping wins |
| Drawings.ResolveNearestSuperclass | src/main/java/fopbot/DrawingRegistry.java:110-114 | otherwise the nearest mapped superclass's drawing |
| Drawings.ResolveFallback | src/main/java/fopbot/DrawingRegistry.java:117 | FALLBACK_DRAWING when no class in the chain is mapped |
| Drawings.DrawingMap.constructor | src/main/java/fopbot/DrawingRegistry.java:24-27 | a map with the given entries |
| Drawings.DrawingRegistry.constructor | src/main/java/fopbot/DrawingRegistry.java:24-27 | the record of a map and an order |
| Drawings.DrawingRegistry.GetDrawing | src/main/java/fopbot/DrawingRegistry.java:104-118 | the loop up the superclass chain returns exactly the resolved drawing |
| Drawings.Copy | src/main/java/fopbot/DrawingRegistry.java:52-54 | a fresh map object with the parent's entries and order |
| Drawings.DrawingRegistryBuilder.constructor | src/main/java/fopbot/DrawingRegistry.java:164-166 | the builder works on the given map object |
| Drawings.DrawingRegistryBuilder.Empty | src/main/java/fopbot/DrawingRegistry.java:171-173 | a builder over a fresh empty map |
| Drawings.DrawingRegistryBuilder.Add | src/main/java/fopbot/DrawingRegistry.java:183-186 | the class is mapped to the drawing, overwriting any earlier mapping |
| Drawings.DrawingRegistryBuilder.AddAll | src/main/java/fopbot/DrawingRegistry.java:195-198 | all given mappings are added, overriding existing ones; other classes keep theirs |
| Drawings.DrawingRegistryBuilder.Build | src/main/java/fopbot/DrawingRegistry.java:208-210 | a new registry over the builder's map, with the given order |
| Drawings.BuilderOf | src/main/java/fopbot/DrawingRegistry.java:82-84 | as written: the builder shares the parent's map object |
| Drawings.BuilderOfCopy | src/main/java/fopbot/DrawingRegistry.java:82-84 | corrected: the builder starts from a copy of the parent's entries |
| Drawings.DefaultEntries | src/main/java/fopbot/DrawingRegistry.java:37-45 | the four classes Block, Coin, Robot and Wall are mapped |
| Drawings.Default | src/main/java/fopbot/DrawingRegistry.java:37-45 | DEFAULT: each of the four classes has its own drawing, and entities are ordered by drawing order |
| Drawings.CoinSubclassDrawnAsCoin | src/main/java/fopbot/DrawingRegistry.java:110-114 | a subclass of Coin without its own mapping is drawn as a coin |
| Drawings.CopyIsIndependent | src/main/java/fopbot/DrawingRegistry.java:52-54 | editing a copy leaves the parent's map unchanged |
| Drawings.SharedBuilderChangesParent | src/main/java/fopbot/DrawingRegistry.java:82-84 | add through builder(DEFAULT) changes DEFAULT's own map |
| Drawings.CopiedBuilderKeepsParent | src/main/java/fopbot/DrawingRegistry.java:82-84 | with the corrected builder, the parent keeps its entries and the built registry has the addition |
| ResourceCaches.NotFoundMessage | src/main/java/fopbot/anim/resources/ResourceCache.java:20-22 | the message names the resource between "Resource `" and "` not found" |
| ResourceCaches.LoadFailure | src/main/java/fopbot/anim/resources/ResourceCache.java:20-24 | a missing stream fails as not found, an unreadable one as a read failure, a readable one not at all |
| ResourceCaches.FirstFailure | src/main/java/fopbot/anim/resources/ResourceCache.java:12-16 | the first listed resource that cannot be loaded, or none iff all can |
| ResourceCaches.FirstOccurrences | src/main/java/fopbot/anim/resources/ResourceCache.java:12-16 | the listed resources in order of first mention, each once |
| ResourceCaches.FirstOccurrencesStep | src/main/java/fopbot/anim/resources/ResourceCache.java:12-16 | one more resource joins the end unless it was listed before |
| ResourceCaches.ResourceCache.Empty | src/main/java/fopbot/anim/resources/ResourceCache.java:10 | the cache starts empty |
| ResourceCaches.ResourceCache.Load | src/main/java/fopbot/anim/resources/ResourceCache.java:18-27 | a cached resource is returned without loading; a missing or unreadable one fails and adds nothing; otherwise it is decoded once and stored; entries are never removed or replaced |
| ResourceCaches.ResourceCache.Get | src/main/java/fopbot/anim/resources/ResourceCache.java:29-31 | the cached value or null; it never loads |
| ResourceCaches.Create | src/main/java/fopbot/anim/resources/ResourceCache.java:12-16 | fails iff some listed resource cannot be loaded, with the first one's error; otherwise exactly the listed resources are cached, decoded once each, in order of first mention |
| ResourceCaches.LoadTwiceDecodesOnce | src/main/java/fopbot/anim/resources/ResourceCache.java:18-27 | two loads of the same resource give the same answer, and it is decoded at most once |

## Left out

- Rendering and the GUI: the Swing panels, drawings and renderers, image loading and ids, field colours, sleeping between steps, `printTrace`, `updateGui`, `setAndLoadRobotImages`, and the image and AffineTransform parts of PaintUtils. They are graphics, ImageIO and floating point. `KarelWorld.setVisible` and `trace`'s printing in the newer world are GUI only.
- The newer world's entity snapshots: its `saveStates` is always true, so every `triggerUpdate` calls `saveEntityState`, which appends a copy of all entities (gathered by `getAllFieldEntities`) to `entityStates`, returned by `getEntityStates`. The newer world model does not record these snapshots or offer `getAllFieldEntities`, so its contracts say nothing about `entityStates`. The older world keeps the same kind of snapshot list, and it is modelled there (LegacyKarel.KarelWorld.SaveEntityState, TriggerUpdate, GetAllFieldEntities); the newer world differs only in wrapping each snapshot in a `Field` at (0,0).
- Animation, input handling, the global runners and resources, and the forwarding decorators in `decorate/` and `global/`: threads, AWT events and plain forwarding.
- `RobotTrace`'s iterator and the tracing robot's iterator: they are given as the trace sequences themselves, in order.
- The query forwarders of `TracingRobot` and `TracingWorld` (getX, isFrontClear and so on): they answer what the wrapped object answers, which is modelled there; none of them appends to a trace.
- `TracingWorld.newRobot` and `HeadlessWorld.newRobot`: the robot the wrapped world creates is a parameter, because `HeadlessRobot` is not part of this model.
- `src/fopbot/World.java` is not part of this model: the older world's coordinate checks take the global world's size as a `GlobalSize` parameter, and the older robot constructors without a world take the global world as their `world` argument.
- The older `AbstractWorld.newCoinStack` is abstract: putCoins takes the stack it would return as the `supply` parameter, and the stack found by iterating a `HashSet` is any stack of the cell.
- The older `AbstractWorld.fieldHasWallInDirection` calls a `grid.hasWall(x, y, dir)` that the older `Grid` does not offer (its `hasWall` is private and takes a side index), so it has no member of its own; the older robot's isFrontClear reads the grid's wall flag directly.
- `DrawingRegistry`: classes are names and the superclass chain of a class is a parameter; the comparators are the `EntityOrder` tag and `Drawable` objects are values.
- `ResourceCache`: the class path and the subclass's `loadFromStream` are given as a map from resource name to what the stream decodes to; closing the stream is not modelled.
- `HookableHashMap`: hooks are opaque handles whose effects are recorded as a log of calls; hooks that change the map or throw, and `null` keys and values other than the null remove value, are not modelled.
- Java `int` overflow of the classic worlds' coin piles and of `robotCount` is not modelled: both are unbounded integers. The step counter and the wall-per-side worlds' coin counts do wrap. Position arithmetic `x + dx` never leaves the int range for a robot inside a world.
- `entityStates` is `null` in Java before the first snapshot; the model starts with an empty list.
- Entity objects: coin piles, blocks and walls are values without object identity; the per-cell `Cell` objects of the wall-per-side grids are flattened into arrays.
- Enum order: the `Direction` enums of the wall-per-side grids are assumed to be declared NORTH, EAST, SOUTH, WEST for the wall index.
- `isTurnedOn` is taken to be the negation of `isTurnedOff`.
- The Gradle build scripts: configuration of a build tool.
- `World.removeRobot`: it forwards to a `removeRobot` that the newer `KarelWorld` does not declare.
- The newer `KarelWorld.getTrace` and `getTraces`: they copy traces and append a `NONE` transition for display. The trace bookkeeping they read is modelled.
- LegacyImplRobot.Robot.PutCoin: the method is empty, so the contract says only that the robot is unchanged.
- LegacyImplRobot.Robot.PickCoin: the method is empty, so the contract says only that the robot is unchanged.
- LegacyImplRobot.Robot.SetField: the method is empty, so the contract says only that the robot is unchanged.
- LegacyImplWorld.AbstractWorld.PutCoins: with several stacks in a cell, it says only that one of them (not which) gains the coins, because `HashSet` iteration order is not specified.

## Findings

| source | as written | input that shows it | evidently intended | confidence | as-written member | corrected member |
|---|---|---|---|---|---|---|
| src/foshbot/grid/Grid.java:42-47 | setSouthWall mirrors onto (x,y+1) only when y < height-2 | a 1 by 2 grid, setSouthWall(0,0,true): the north wall of (0,1) stays false | mirror whenever y < height-1, as the newer Grid does | high, not executed | LegacyGrid.Grid.SetSouthWall (witness LegacyGrid.SouthWallSeenFromOneSide) | LegacyGrid.Grid.SetSouthWallMirrored |
| src/foshbot/grid/Grid.java:53-58 | setEastWall mirrors onto (x+1,y) only when x < width-2 | a 2 by 1 grid, setEastWall(0,0,true): the west wall of (1,0) stays false | mirror whenever x < width-1 | high, not executed | LegacyGrid.Grid.SetEastWall (witness LegacyGrid.EastWallSeenFromOneSide) | LegacyGrid.Grid.SetEastWallMirrored |
| src/main/java/fopbot/impl/AbstractRobot.java:113-120 | setField removes the robot from getEntities(x, y) with the new coordinates, because the parameters shadow the fields; move (line 52) and so every step goes through it | a robot at (0,0) calling setField(1,0), or facing EAST in a 2 by 1 grid and calling move(): it is listed in both (0,0) and (1,0) | remove it from the old cell before moving | high, not executed | ImplRobot.Robot.SetField and ImplRobot.Robot.Move (witnesses ImplRobot.SetFieldLeavesOldEntry and ImplRobot.MoveLeavesOldEntry) | ImplRobot.Robot.SetFieldCorrected and ImplRobot.Robot.MoveCorrected (with ImplRobot.SetFieldCorrectedKeepsOneEntry and ImplRobot.MoveCorrectedKeepsOneEntry) |
| src/main/java/fopbot/DrawingRegistry.java:82-84 | builder(parent) hands the parent's own map to the builder, although its documentation promises a builder pre-populated with the parent's drawings | builder(DEFAULT).add(c, d): DEFAULT itself now maps c to d | start the builder from a copy of the parent's map | medium, not executed | Drawings.BuilderOf (witness Drawings.SharedBuilderChangesParent) | Drawings.BuilderOfCopy (with Drawings.CopiedBuilderKeepsParent) |
