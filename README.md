# PGL2D in Dafny

PGL2D is a small 2D game framework on top of MonoGame. This project models its core:
- the collision-point algebra and the two-body rectangle collision test with its contact normal;
- the movement of a body, covering its speed rules, the semi-implicit Euler step and the clamp that keeps it inside an optional bounding region;
- vector reflection;
- keyboard input, covering key modes between two snapshots, keybinds and the action-keyed input map;
- the controllable entity, which feeds the active keybinds to its input handler before it moves;
- the lifecycle of entities, screens and the screen system, which prune, filter and dispatch lists of objects.

The modules follow the source files:

- `Geometry`: Vector2 and Rectangle, as plain values
- `CollisionPoints`: `Collision/RectangleCollisionPointEx.cs` and its two enumerations
- `Collision`: `Collision/Collision.cs`
- `MoveableEntities`: `GameObject/MoveableEntity.cs` together with the `PhysicalEntity.cs` state it builds on
- `Vector2Ex`: `Utility/Vector2Ex.cs`
- `Inputs`: `Input/InputSystem.cs`, `InputState.cs`, `Input.cs`
- `Keybinds`: `Input/Keybind.cs`
- `InputMaps`: `Input/InputMap.cs`
- `ControllableGameEntities`: `GameObject/ControllableGameEntity.cs`
- `GameEntities`: `GameObject/GameEntity.cs`
- `BaseScreens`: `ScreenSystem/BaseScreen.cs`
- `ScreenSystems`: `ScreenSystem/ScreenSystem.cs`

The form of each module follows the form of its source:
- **Pure code is functions.** Pure code such as `Combine`, `GetNormal`, `Reflect` and `GetKeyState` is written as functions over datatypes.
- **Objects with fields are classes.** Objects whose fields the framework updates are classes whose methods carry `modifies` clauses: entities, screens, keybinds, the input map, the input system and the screen system.
- **Loops stay loops.** The `foreach` loops of the framework are `while` loops with invariants.
- **Loops are proved against functions.** Each method that loops is proved against a function on values, and the properties of the framework are lemmas about those functions:
  - `RefreshAll` and `RefreshBindings` for updating inputs;
  - `WithAction` and `Lookup` for the keybind table;
  - `CheckBoundsOutcome` for the bounds clamp;
  - `Surviving`, `Unfrozen`, `Visible` and `ActiveKeybinds` for the list filters.
- **Abstract members are recorded.** Abstract and virtual hooks whose behaviour a game supplies are recorded in ghost logs:
  - `HitBounds`, `HandleInput`, `PreMovement` and `PostMovement`;
  - `UpdateEntity` and `DrawEntity`;
  - `LoadEntityContent`, `UpdateScreen` and `DrawScreen`.

  The log records each call and its arguments, in order.

Some behaviour of the framework is modelled as written, even where it looks unintended:
- **Corner normals point the other way.** They have the opposite orientation to the sum of the two side normals they combine. For example, `TopLeftCorner` outward is along (1,1), while Top plus Left outward is (-1,-1).
- **`PhysicalEntity.LoadContent` puts the rectangle at the position.** It puts the rectangle's top-left at the truncated position, not at position minus origin, so it disagrees with `UpdateRectangle` until the next movement step.
- **`PhysicalEntity.UnloadContent` fails without a texture.** Without a loaded texture it dereferences null before it resets the origin. The model returns `ok == false` and changes nothing.
- **A duplicate screen loads once.** `ScreenSystem.LoadScreenContent` tests `ContentLoaded` lazily as it reaches each screen. A screen listed twice therefore loads its content once.
- **A collision can have no normal.** `Collision.RectangularCollision` reports a collision even when none of its side or corner tests fires. The normal then stays zero.

## Model

| member | source | states |
|---|---|---|
| Geometry.Trunc | PGL2D/PGL2D/GameObject/PhysicalEntity.cs:123 | the `(int)` cast truncates toward zero: within one below a non-negative value and one above a negative one, never larger in magnitude |
| Geometry.TruncOfInteger | PGL2D/PGL2D/GameObject/PhysicalEntity.cs:123 | casting a whole number gives that number back |
| Geometry.IntersectsSymmetric | PGL2D/PGL2D/Collision/Collision.cs:26-29 | rectangle overlap does not depend on the order of the rectangles |
| Geometry.SeparatedDoNotIntersect | PGL2D/PGL2D/Collision/Collision.cs:26-29 | rectangles separated along either axis do not collide |
| CollisionPoints.Combine | PGL2D/PGL2D/Collision/RectangleCollisionPointEx.cs:15-41 | the result is a corner exactly when one point is Left or Right and the other Top or Bottom, in either order; otherwise None |
| CollisionPoints.CombineCommutative | PGL2D/PGL2D/Collision/RectangleCollisionPointEx.cs:18-38 | Combine(p, q) == Combine(q, p) for every pair |
| CollisionPoints.CombineDegenerate | PGL2D/PGL2D/Collision/RectangleCollisionPointEx.cs:18-40 | equal points, opposite sides, None and corners combine to None |
| CollisionPoints.GetCornerNormal | PGL2D/PGL2D/Collision/RectangleCollisionPointEx.cs:48-54 | the normal is zero exactly when its direction is zero |
| CollisionPoints.GetNormal | PGL2D/PGL2D/Collision/RectangleCollisionPointEx.cs:62-85 | None gives the zero normal and only None does; sides give axis unit vectors; corners give diagonals with both components of magnitude one |
| CollisionPoints.InsideNormalIsReversed | PGL2D/PGL2D/Collision/RectangleCollisionPointEx.cs:66-81 | the inside normal of every point is its outside normal negated |
| CollisionPoints.OutwardSideNormals | PGL2D/PGL2D/Collision/RectangleCollisionPointEx.cs:66-73 | outward, Top is (0,-1), Left (-1,0), Bottom (0,1) and Right (1,0) |
| CollisionPoints.CornerNormalOpposesSideSum | PGL2D/PGL2D/Collision/RectangleCollisionPointEx.cs:74-81 | the normal of Combine(h, v) points opposite to the sum of the normals of h and v, for both values of `inside` |
| CollisionPoints.GetCollisionSide | PGL2D/PGL2D/Collision/RectangleCollisionPointEx.cs:92-113 | each side is reached from exactly its points: left corners and Left to Left, right corners and Right to Right, Top, Bottom, None |
| CollisionPoints.CombineThenSide | PGL2D/PGL2D/Collision/RectangleCollisionPointEx.cs:96-105 | coarsening the corner made from a horizontal and a vertical side gives back the horizontal side, in either order |
| Collision.RectangularCollision | PGL2D/PGL2D/Collision/Collision.cs:26-29 | the test does not depend on the order of the rectangles; for rectangles of positive size it holds exactly when they share a region of positive width and height |
| Collision.RectangleCollision | PGL2D/PGL2D/Collision/Collision.cs:15-18 | two bodies collide exactly when their rectangles do, in either order |
| Collision.ContactNormal | PGL2D/PGL2D/Collision/Collision.cs:48-73 | away from a corner the normal is zero exactly when no side test fires, and a normal with two non-zero components only comes from the corner test |
| Collision.RectangleCollisionSymmetric | PGL2D/PGL2D/Collision/Collision.cs:15-18 | the entity collision test does not depend on the order of the entities |
| Collision.RectangularCollisionWithNormal | PGL2D/PGL2D/Collision/Collision.cs:39-76 | the result is exactly rectangle overlap; without overlap the normal is zero, and with overlap it is the precedence-ordered ContactNormal of the relative position, velocity and size |
| Collision.OppositeSidesExclusive | PGL2D/PGL2D/Collision/Collision.cs:48-58 | the Right and Left tests never both fire, nor do Top and Bottom |
| Collision.VerticalOverridesHorizontal | PGL2D/PGL2D/Collision/Collision.cs:48-73 | a corner match wins over every side; otherwise a Top or Bottom match wins over Left and Right |
| Collision.ContactNormalShape | PGL2D/PGL2D/Collision/Collision.cs:48-73 | the normal is zero, or the direction of delta, or an axis unit vector on the side delta points to |
| Collision.OverlapWithoutNormal | PGL2D/PGL2D/Collision/Collision.cs:41-75 | two overlapping bodies at rest at the same place collide with a zero normal |
| Collision.SideContactScenario | PGL2D/PGL2D/Collision/Collision.cs:49 | a body to the right, within half the height and moving left, gets the normal (1,0) |
| Vector2Ex.Reflect | PGL2D/PGL2D/Utility/Vector2Ex.cs:13-16 | for a unit normal, the reflected vector's component along the normal is negated |
| Vector2Ex.ReflectIsTextbook | PGL2D/PGL2D/Utility/Vector2Ex.cs:15 | the framework's expression equals v - 2(v.n)n |
| Vector2Ex.ReflectOrthogonal | PGL2D/PGL2D/Utility/Vector2Ex.cs:15 | a vector orthogonal to the normal is unchanged |
| Vector2Ex.ReflectTwice | PGL2D/PGL2D/Utility/Vector2Ex.cs:15 | for a unit normal, reflecting twice gives back the vector |
| Vector2Ex.ReflectKeepsLength | PGL2D/PGL2D/Utility/Vector2Ex.cs:15 | for a unit normal, the squared length is kept |
| Vector2Ex.ReflectAxis | PGL2D/PGL2D/Utility/Vector2Ex.cs:15 | an axis normal (+-1,0) negates only x, and (0,+-1) negates only y |
| MoveableEntities.RectangleFor | PGL2D/PGL2D/GameObject/PhysicalEntity.cs:120-124 | the derived rectangle has non-negative size, and zero size without a texture |
| MoveableEntities.StartSpeed | PGL2D/PGL2D/GameObject/MoveableEntity.cs:94-106 | a moving body keeps its speed; a stopped one takes the smaller of the initial and maximum speed, or the maximum when no initial speed is given and the maximum is positive |
| MoveableEntities.SpedUp | PGL2D/PGL2D/GameObject/MoveableEntity.cs:132-142 | a non-positive delta changes nothing; otherwise the result is the sum or the maximum, whichever is smaller |
| MoveableEntities.SlowedDown | PGL2D/PGL2D/GameObject/MoveableEntity.cs:148-158 | a non-positive delta changes nothing; otherwise the result is the difference or zero, whichever is larger |
| MoveableEntities.MoveableEntity.constructor | PGL2D/PGL2D/GameObject/MoveableEntity.cs:25-38 | a new body is at rest with zero acceleration, no texture or origin, the given bounds, angle and maximum speed, and a rectangle derived from its position |
| MoveableEntities.MoveableEntity.UpdateVelocity | PGL2D/PGL2D/GameObject/MoveableEntity.cs:68-71 | the velocity becomes speed times (cos, sin) of the angle |
| MoveableEntities.MoveableEntity.UpdateRectangle | PGL2D/PGL2D/GameObject/PhysicalEntity.cs:120-124 | the rectangle becomes position - origin, truncated, with the texture's size |
| MoveableEntities.MoveableEntity.LoadContent | PGL2D/PGL2D/GameObject/PhysicalEntity.cs:82-93 | a blank texture name changes nothing; otherwise the origin is half the texture size and the rectangle sits at the truncated position itself |
| MoveableEntities.MoveableEntity.UnloadContent | PGL2D/PGL2D/GameObject/PhysicalEntity.cs:98-102 | with a texture the origin is reset to zero; without one the call fails and nothing changes |
| MoveableEntities.MoveableEntity.BindEntity | PGL2D/PGL2D/GameObject/MoveableEntity.cs:77-80 | the body is bound to the given region |
| MoveableEntities.MoveableEntity.UnbindEntity | PGL2D/PGL2D/GameObject/MoveableEntity.cs:85-88 | the body has no bounding region |
| MoveableEntities.MoveableEntity.Start | PGL2D/PGL2D/GameObject/MoveableEntity.cs:94-106 | a moving body is unaffected; otherwise the speed follows StartSpeed and the velocity is recomputed |
| MoveableEntities.MoveableEntity.Stop | PGL2D/PGL2D/GameObject/MoveableEntity.cs:111-115 | speed and velocity become zero |
| MoveableEntities.MoveableEntity.ChangeDirection | PGL2D/PGL2D/GameObject/MoveableEntity.cs:121-126 | the angle is set and the velocity recomputed from it |
| MoveableEntities.MoveableEntity.SpeedUp | PGL2D/PGL2D/GameObject/MoveableEntity.cs:132-142 | a non-positive delta is a no-op; otherwise the speed follows SpedUp and the velocity is recomputed |
| MoveableEntities.MoveableEntity.SlowDown | PGL2D/PGL2D/GameObject/MoveableEntity.cs:148-158 | a non-positive delta is a no-op; otherwise the speed follows SlowedDown and the velocity is recomputed |
| MoveableEntities.MoveableEntity.HitBounds | PGL2D/PGL2D/GameObject/MoveableEntity.cs:229-232 | each call of the hook is recorded with its arguments and the position at the time |
| MoveableEntities.MoveableEntity.CheckBounds | PGL2D/PGL2D/GameObject/MoveableEntity.cs:176-221 | position, rectangle and hook calls are exactly those of CheckBoundsOutcome: no bounds or no change leaves all as is; otherwise one hook call with the change and inward normal, before the new position is committed |
| MoveableEntities.MoveableEntity.UpdateEntity | PGL2D/PGL2D/GameObject/MoveableEntity.cs:164-171 | the velocity gains acceleration times dt, the position moves by the new velocity times dt, and the bounds clamp is applied to the moved body |
| MoveableEntities.EulerStep | PGL2D/PGL2D/GameObject/MoveableEntity.cs:166-167 | one step moves by v dt + a dt^2, because the position uses the updated velocity |
| MoveableEntities.SpeedRulesKeepRange | PGL2D/PGL2D/GameObject/MoveableEntity.cs:94-158 | Start, Stop, SpeedUp and SlowDown keep the speed at most the maximum (or zero when the maximum is not positive) |
| MoveableEntities.ClampX | PGL2D/PGL2D/GameObject/MoveableEntity.cs:183-195 | the point is Left, Right or None; Left exactly when the rectangle sticks out on the left, None exactly when it fits horizontally, and then x is kept |
| MoveableEntities.ClampY | PGL2D/PGL2D/GameObject/MoveableEntity.cs:197-212 | the point is Top, Bottom or None; Top exactly when the rectangle sticks out at the top, None exactly when it fits vertically, and then y is kept |
| MoveableEntities.Correct | PGL2D/PGL2D/GameObject/MoveableEntity.cs:183-215 | there is no collision point exactly when the rectangle lies inside the region, and then the position is kept |
| MoveableEntities.CheckBoundsOutcome | PGL2D/PGL2D/GameObject/MoveableEntity.cs:176-221 | at most one hook call, made exactly when the position changes, recording the change and the position before it; without a call the rectangle is kept |
| MoveableEntities.NoBoundsNoCorrection | PGL2D/PGL2D/GameObject/MoveableEntity.cs:178 | without bounds nothing moves and no hook is called |
| MoveableEntities.CorrectAxesIndependent | PGL2D/PGL2D/GameObject/MoveableEntity.cs:183-212 | the horizontal clamp depends only on horizontal data and the vertical one only on vertical data |
| MoveableEntities.CorrectTargets | PGL2D/PGL2D/GameObject/MoveableEntity.cs:183-212 | left is checked before right and top before bottom; the targets are bounds.X + origin.X, bounds.Right - origin.X, bounds.Y + origin.Y, bounds.Bottom - origin.Y or the old coordinate |
| MoveableEntities.CorrectPoint | PGL2D/PGL2D/GameObject/MoveableEntity.cs:187-211 | one clamped axis yields its side, two yield the corner Combine makes of them, none yields None |
| MoveableEntities.InsideNeedsNoCorrection | PGL2D/PGL2D/GameObject/MoveableEntity.cs:183-215 | a rectangle already inside the bounds is left alone and no hook is called |
| MoveableEntities.ClampAlignsEdges | PGL2D/PGL2D/GameObject/MoveableEntity.cs:183-212 | with the origin at the texture's centre, each clamp puts the rectangle's edge on the region's edge |
| MoveableEntities.CheckBoundsSettles | PGL2D/PGL2D/GameObject/MoveableEntity.cs:176-221 | for a body that fits in the region, one clamp puts it inside, and a second CheckBounds changes nothing and calls no hook |
| MoveableEntities.EdgeClampScenario | PGL2D/PGL2D/GameObject/MoveableEntity.cs:183-220 | a 10x10 body at (-3,50) in (0,0,100,100) moves to (5,50) with one Left hit of normal (1,0) |
| MoveableEntities.CornerClampScenario | PGL2D/PGL2D/GameObject/MoveableEntity.cs:197-211 | the same body at (-3,-3) moves to (5,5) with one TopLeftCorner hit |
| Inputs.KeyMode | PGL2D/PGL2D/Input/InputSystem.cs:42-52 | New, Held, Released and None each hold exactly for their combination of previous and current key state |
| Inputs.InputState.constructor | PGL2D/PGL2D/Input/InputState.cs:12-16 | a new snapshot holds the keyboard and is not frozen |
| Inputs.InputState.Update | PGL2D/PGL2D/Input/InputState.cs:32-37 | a frozen snapshot keeps its keys; an unfrozen one takes the keyboard |
| Inputs.InputSystem.constructor | PGL2D/PGL2D/Input/InputSystem.cs:10-14 | both snapshots are fresh, unfrozen and read from the keyboard |
| Inputs.InputSystem.Update | PGL2D/PGL2D/Input/InputSystem.cs:29-35 | the old current snapshot becomes the previous one and is frozen; a fresh unfrozen snapshot becomes current |
| Inputs.InputSystem.GetKeyState | PGL2D/PGL2D/Input/InputSystem.cs:42-52 | a key is active exactly when it is down in the current snapshot, and Released exactly when it was down in the previous one and is up now |
| Inputs.Refreshed | PGL2D/PGL2D/Input/Input.cs:30-33 | the key is kept and the new mode is active exactly when the key is down now |
| Keybinds.RefreshAll | PGL2D/PGL2D/Input/Keybind.cs:38-44 | every input is refreshed in place; count and order are kept |
| Keybinds.RefreshAllIdempotent | PGL2D/PGL2D/Input/Keybind.cs:38-44 | refreshing twice from the same snapshots gives the same inputs as refreshing once |
| Keybinds.HasMode | PGL2D/PGL2D/Input/Keybind.cs:51-54 | true exactly when some input has the mode |
| Keybinds.HasActiveInput | PGL2D/PGL2D/GameObject/ControllableGameEntity.cs:62 | true exactly when some input is neither Released nor None; never for no inputs |
| Keybinds.Keybind.constructor | PGL2D/PGL2D/Input/Keybind.cs:13-22 | no inputs without an initial input, the initial input alone otherwise |
| Keybinds.Keybind.Update | PGL2D/PGL2D/Input/Keybind.cs:38-44 | the inputs become RefreshAll of the old inputs for the two snapshots |
| Keybinds.Keybind.CheckMode | PGL2D/PGL2D/Input/Keybind.cs:51-54 | true exactly when some input has the mode |
| Keybinds.Keybind.Add | PGL2D/PGL2D/Input/Keybind.cs:60-63 | the input is appended at the end and the earlier inputs are kept |
| InputMaps.FirstNamed | PGL2D/PGL2D/Input/InputMap.cs:41 | the index of the first binding with the action, or None exactly when there is none |
| InputMaps.Lookup | PGL2D/PGL2D/Input/InputMap.cs:68-72 | the inputs of the first binding with the action, or none when there is none |
| InputMaps.WithAction | PGL2D/PGL2D/Input/InputMap.cs:39-50 | bindings keep their actions and those of other actions are untouched; the table grows by one exactly when the action is unknown, and then ends with a binding holding only the input |
| InputMaps.RefreshBindings | PGL2D/PGL2D/Input/InputMap.cs:26-32 | same number of bindings; each keeps its action and has its inputs refreshed |
| InputMaps.InputMap.constructor | PGL2D/PGL2D/Input/InputMap.cs:12-15 | a new map has no keybinds |
| InputMaps.InputMap.FindKeybind | PGL2D/PGL2D/Input/InputMap.cs:41 | returns the position FirstNamed gives for the current contents |
| InputMaps.InputMap.NewAction | PGL2D/PGL2D/Input/InputMap.cs:39-50 | the contents become WithAction of the old contents, and each keybind object still occurs once |
| InputMaps.InputMap.ExtendKeybind | PGL2D/PGL2D/Input/InputMap.cs:42-45 | the keybind at the index gets the input appended; every other keybind is unchanged |
| InputMaps.InputMap.AppendKeybind | PGL2D/PGL2D/Input/InputMap.cs:46-49 | a new keybind holding only the input is appended |
| InputMaps.InputMap.NewKeyAction | PGL2D/PGL2D/Input/InputMap.cs:57-61 | the same as NewAction with a new input for the key |
| InputMaps.InputMap.GetKeybinds | PGL2D/PGL2D/Input/InputMap.cs:68-72 | returns Lookup of the current contents |
| InputMaps.InputMap.Update | PGL2D/PGL2D/Input/InputMap.cs:26-32 | the contents become RefreshBindings of the old contents |
| InputMaps.NewActionExisting | PGL2D/PGL2D/Input/InputMap.cs:41-45 | for a known action, the count is unchanged, its first keybind gets the input at the end, and the others are untouched |
| InputMaps.NewActionUnknown | PGL2D/PGL2D/Input/InputMap.cs:46-49 | for an unknown action, one keybind holding only the input is appended |
| InputMaps.NewActionKeepsDistinct | PGL2D/PGL2D/Input/InputMap.cs:39-50 | distinct action names stay distinct |
| InputMaps.NewActionLookup | PGL2D/PGL2D/Input/InputMap.cs:39-50 | afterwards the action looks up as its earlier inputs followed by the new one |
| InputMaps.NewActionLookupOther | PGL2D/PGL2D/Input/InputMap.cs:39-50 | every other action looks up as before |
| InputMaps.RefreshLookup | PGL2D/PGL2D/Input/InputMap.cs:26-32 | after Update, each action looks up as its earlier inputs refreshed |
| ControllableGameEntities.ActiveKeybinds | PGL2D/PGL2D/GameObject/ControllableGameEntity.cs:60-62 | exactly the keybinds with an active input are kept, none of them has no inputs, and the result is no longer than the list |
| ControllableGameEntities.ActiveKeybindsDistributes | PGL2D/PGL2D/GameObject/ControllableGameEntity.cs:60-62 | the filter keeps relative order: filtering a concatenation filters each part |
| ControllableGameEntities.ControllableGameEntity.constructor | PGL2D/PGL2D/GameObject/ControllableGameEntity.cs:24-30 | the speed argument becomes the body's maximum speed, there are no bounds, and the input map is new and empty |
| ControllableGameEntities.ControllableGameEntity.ProcessInput | PGL2D/PGL2D/GameObject/ControllableGameEntity.cs:56-65 | the map is refreshed first, and then the handler receives the active keybinds of the refreshed map |
| ControllableGameEntities.ControllableGameEntity.InputPhases | PGL2D/PGL2D/GameObject/ControllableGameEntity.cs:43-47 | PreMovement, then the input handling, then PostMovement |
| ControllableGameEntities.ControllableGameEntity.UpdateEntity | PGL2D/PGL2D/GameObject/ControllableGameEntity.cs:41-50 | the phases run in the order PreMovement, HandleInput, PostMovement, Movement; the body then takes the Euler step and bounds clamp of MoveableEntity.UpdateEntity from the velocity, position and hit log the hooks left it with |
| GameEntities.GameEntity.constructor | PGL2D/PGL2D/GameObject/GameEntity.cs:11-14 | a new entity is not initialized |
| GameEntities.GameEntity.Initialize | PGL2D/PGL2D/GameObject/GameEntity.cs:39-42 | the entity is initialized |
| GameEntities.GameEntity.Terminate | PGL2D/PGL2D/GameObject/GameEntity.cs:47-50 | the entity is no longer initialized |
| GameEntities.GameEntity.Update | PGL2D/PGL2D/GameObject/GameEntity.cs:56-61 | UpdateEntity runs once when the entity is not frozen, and never when it is |
| GameEntities.GameEntity.Draw | PGL2D/PGL2D/GameObject/GameEntity.cs:74-79 | DrawEntity runs once when the entity is not hidden, and never when it is |
| GameEntities.Surviving | PGL2D/PGL2D/ScreenSystem/BaseScreen.cs:119-120 | exactly the entities whose deletion was not requested are kept |
| GameEntities.Unfrozen | PGL2D/PGL2D/ScreenSystem/BaseScreen.cs:122-123 | exactly the entities that are not frozen are kept |
| GameEntities.Visible | PGL2D/PGL2D/ScreenSystem/BaseScreen.cs:144-145 | exactly the entities that are not hidden are kept |
| GameEntities.OfKind | PGL2D/PGL2D/ScreenSystem/BaseScreen.cs:100 | exactly the entities of the kind are kept |
| GameEntities.SurvivingDistributes | PGL2D/PGL2D/ScreenSystem/BaseScreen.cs:119-120 | pruning keeps relative order |
| GameEntities.UnfrozenDistributes | PGL2D/PGL2D/ScreenSystem/BaseScreen.cs:122-123 | the unfrozen filter keeps relative order |
| GameEntities.VisibleDistributes | PGL2D/PGL2D/ScreenSystem/BaseScreen.cs:144-145 | the visible filter keeps relative order |
| GameEntities.OfKindDistributes | PGL2D/PGL2D/ScreenSystem/BaseScreen.cs:100 | the kind filter keeps relative order |
| GameEntities.SurvivingIdempotent | PGL2D/PGL2D/ScreenSystem/BaseScreen.cs:119-120 | pruning a pruned list changes nothing |
| BaseScreens.BaseScreen.constructor | PGL2D/PGL2D/ScreenSystem/BaseScreen.cs:18-28 | flags come from the arguments, deletion is not requested, both entity lists are empty, and the input map is new |
| BaseScreens.BaseScreen.LoadContent | PGL2D/PGL2D/ScreenSystem/BaseScreen.cs:63-81 | LoadEntityContent runs once and the screen counts as loaded |
| BaseScreens.BaseScreen.Initialize | PGL2D/PGL2D/GameObject/GameEntity.cs:39-42 | the screen is initialized |
| BaseScreens.BaseScreen.UnloadContent | PGL2D/PGL2D/ScreenSystem/BaseScreen.cs:98-111 | the physical entities are unloaded, then the text entities, and the screen counts as unloaded |
| BaseScreens.BaseScreen.Terminate | PGL2D/PGL2D/ScreenSystem/BaseScreen.cs:86-93 | content is unloaded, deletion is requested, and the screen is no longer initialized |
| BaseScreens.BaseScreen.UpdateEntity | PGL2D/PGL2D/ScreenSystem/BaseScreen.cs:117-126 | both lists are pruned of deleted entities in order, UpdateScreen receives exactly the unfrozen survivors, and text entities stay in the text list |
| BaseScreens.BaseScreen.Update | PGL2D/PGL2D/GameObject/GameEntity.cs:56-61 | a frozen screen is untouched; otherwise it behaves as UpdateEntity |
| BaseScreens.BaseScreen.DrawEntity | PGL2D/PGL2D/ScreenSystem/BaseScreen.cs:142-148 | DrawScreen receives exactly the visible entities of each list, and nothing is removed |
| BaseScreens.BaseScreen.Draw | PGL2D/PGL2D/GameObject/GameEntity.cs:74-79 | a hidden screen draws nothing; otherwise it behaves as DrawEntity |
| BaseScreens.BaseScreen.AddEntity | PGL2D/PGL2D/ScreenSystem/BaseScreen.cs:164-175 | a text entity is appended to the text list and anything else to the entity list; the other list is unchanged |
| ScreenSystems.SurvivingScreens | PGL2D/PGL2D/ScreenSystem/ScreenSystem.cs:23 | the pruned list is no longer than the list; which screens it keeps is SurvivingScreensMembers |
| ScreenSystems.UnfrozenScreens | PGL2D/PGL2D/ScreenSystem/ScreenSystem.cs:25 | the update filter's result is no longer than the list; which screens it keeps is UnfrozenScreensMembers |
| ScreenSystems.VisibleScreens | PGL2D/PGL2D/ScreenSystem/ScreenSystem.cs:38 | the draw filter's result is no longer than the list; which screens it keeps is VisibleScreensMembers |
| ScreenSystems.SurvivingScreensMembers | PGL2D/PGL2D/ScreenSystem/ScreenSystem.cs:23 | pruning keeps exactly the screens whose deletion was not requested |
| ScreenSystems.UnfrozenScreensMembers | PGL2D/PGL2D/ScreenSystem/ScreenSystem.cs:25 | the update filter keeps exactly the screens that are not frozen |
| ScreenSystems.VisibleScreensMembers | PGL2D/PGL2D/ScreenSystem/ScreenSystem.cs:38 | the draw filter keeps exactly the screens that are not hidden |
| ScreenSystems.SurvivingScreensDistributes | PGL2D/PGL2D/ScreenSystem/ScreenSystem.cs:23 | pruning keeps relative order |
| ScreenSystems.UnfrozenScreensDistributes | PGL2D/PGL2D/ScreenSystem/ScreenSystem.cs:25 | the update filter keeps relative order |
| ScreenSystems.VisibleScreensDistributes | PGL2D/PGL2D/ScreenSystem/ScreenSystem.cs:38 | the draw filter keeps relative order |
| ScreenSystems.ScreenSystem.constructor | PGL2D/PGL2D/ScreenSystem/ScreenSystem.cs:13 | a new system has no screens |
| ScreenSystems.ScreenSystem.Update | PGL2D/PGL2D/ScreenSystem/ScreenSystem.cs:19-29 | an empty system is untouched; otherwise the screens whose deletion was requested are removed in order, the unfrozen survivors are updated in list order, and every other screen is untouched |
| ScreenSystems.ScreenSystem.UpdateEach | PGL2D/PGL2D/ScreenSystem/ScreenSystem.cs:25-28 | each given screen is updated once, in order, and no other screen changes |
| ScreenSystems.ScreenSystem.Draw | PGL2D/PGL2D/ScreenSystem/ScreenSystem.cs:36-42 | the visible screens are drawn in list order, the others are untouched, and the list is unchanged |
| ScreenSystems.ScreenSystem.DrawEach | PGL2D/PGL2D/ScreenSystem/ScreenSystem.cs:38-41 | each given screen is drawn once, in order, and no other screen changes |
| ScreenSystems.ScreenSystem.AddScreen | PGL2D/PGL2D/ScreenSystem/ScreenSystem.cs:48-53 | the screen is initialized and appended at the end |
| ScreenSystems.ScreenSystem.RemoveScreen | PGL2D/PGL2D/ScreenSystem/ScreenSystem.cs:59-62 | the screen is only terminated, which requests its deletion; the list is not touched here, and Update's contract then removes it |
| ScreenSystems.ScreenSystem.LoadScreenContent | PGL2D/PGL2D/ScreenSystem/ScreenSystem.cs:67-73 | every screen ends loaded, and each screen that was not loaded runs LoadEntityContent exactly once, even when listed twice; loaded screens do not run it |

## Left out

- **Floating point.** Single-precision floats are modelled as exact reals; rounding and NaN are not captured.
- **Square roots.** `Vector2.Normalize` in `GetCornerNormal` and in the corner override of `RectangularCollision` needs a square root. A normal is kept as the direction it normalises (`Geometry.Normal`). The unit scaling is not modelled, and neither is the NaN a zero vector gives.
- **Trigonometry.** `Math.Cos` and `Math.Sin` in `UpdateVelocity` are functions that each body receives and that the model does not interpret.
- **Rectangle overlap.** `Rectangle.Intersects` is MonoGame library code that is not part of this model. It is assumed to be strict overlap on both axes (`Geometry.Intersects`).
- **Content and drawing.** Texture and font loading, `Dispose` and the `SpriteBatch` drawing calls are left out. The content manager's texture is a parameter of `LoadContent`, and the `ContentLoaded` and `TextUpdated` events are omitted.
- **Files not modelled.** `ScreenSystem/GameScreen.cs`, `GameObject/TextEntity.cs` (font measurement), `Game/BaseGame.cs` (game-loop wiring) and `Utility/RandomEx.cs` (`System.Random`; its loop need not end) are not part of this model.
- **Interfaces.** The interface files declare no behaviour.
- **The keyboard.** `Keyboard.GetState` reads hardware. Each snapshot receives the set of keys held down, and `GameTime` is reduced to the elapsed seconds `dt`.
- **The default input mode.** `InputMode.cs` is not part of this model. The mode of a new `Input`, the enumeration's default value, is taken to be `None`.
- **Inputs are values.** `Input` is modelled as a value, not an object. Aliasing is not captured for an `Input` shared between keybinds or for the list `GetKeybinds` returns, which is the keybind's own list in the framework. Refreshing a shared input twice gives the same mode, so `Update` is unaffected.
- **White space.** `String.IsNullOrWhiteSpace` is modelled on the ASCII and Latin-1 white-space characters only. A null texture name is the empty string.
- **No inheritance.** There is no inheritance:
  - `MoveableEntity` holds its `PhysicalEntity` fields;
  - `ControllableGameEntity` holds its body as a `MoveableEntity`;
  - `BaseScreen` repeats the `GameEntity` flags and their `Initialize`, `Update` and `Draw`.
- **Entity kinds.** Kinds are a tag (`EntityKind`) on `GameEntity` instead of the `PhysicalEntity` and `TextEntity` classes. The content unloading of those entities is recorded, not performed.
- **Abstract members.** The abstract and virtual members are calls recorded in ghost logs; what a game does in them is not modelled. The log records these arguments:
  - `HandleInput` records the available keybinds;
  - `UpdateScreen` and `DrawScreen` record their two entity lists;
  - `HitBounds` records its arguments.
- **Helper methods.** `MoveableEntities.MoveableEntity.CheckBounds` and `UpdateEntity` follow the framework directly. Some framework methods are split into helpers that exist only in the model:
  - `ControllableGameEntity.InputPhases` and `ScreenSystem.UpdateEach` / `DrawEach`, which are the loop bodies of `Update` and `Draw`;
  - `InputMap.ExtendKeybind` and `AppendKeybind`, which are the two branches of `NewAction`.
- ScreenSystems.ScreenSystem.Update: states which screens are updated, in which order (the `updated` log) and that no other screen changes. What updating does to each screen is `BaseScreens.BaseScreen.Update`'s contract and is not restated per screen. The framework tests `IsFrozen` lazily as its `foreach` reaches each screen; the model selects the unfrozen screens first. The two agree only because the model's `UpdateScreen` hook changes no flag. A game's `UpdateScreen` that freezes or unfreezes a later screen in the same pass is not captured: the framework then skips or updates that screen and the model does not. A hook that calls `AddScreen` during the pass, which makes the framework's `foreach` throw, is not captured either.
- ScreenSystems.ScreenSystem.Draw: states which screens are drawn, in which order (the `drawn` log). What drawing does to each screen is `BaseScreens.BaseScreen.Draw`'s contract. The framework tests `IsHidden` lazily while it draws; the model selects the visible screens first. The two agree only because the model's `DrawScreen` hook changes no flag. A `DrawScreen` that hides or shows a later screen, or adds a screen, in the same pass is not captured.
- InputMaps.InputMap.Update: requires that each keybind object occurs once in the list (`Valid`). The constructor and `NewAction` keep this, but the framework's `Keybinds` getter hands out the mutable list itself, so a caller can add the same keybind twice. Such a list is not modelled. Updating that keybind twice gives the same inputs as updating it once (`Keybinds.RefreshAllIdempotent`), so the framework's result for such a list is the one the contract states.
- ControllableGameEntities.ControllableGameEntity.UpdateEntity: in the model the `PreMovement`, `HandleInput` and `PostMovement` hooks are only recorded and never move the body, so the velocity, position and hit log that the movement step starts from are the ones the body had before the call. The contract does not promise this, because a game's `HandleInput` steers the body. It states the movement from the state the hooks leave (`preVelocity`, `prePosition`, `preHits`). What the hooks do to the body is not modelled.
- BaseScreens.BaseScreen.UnloadContent: always sets `ContentUnloaded`. In the framework, a physical entity whose content was never loaded has no texture, for example one added after `LoadEntityContent` ran. Its `UnloadContent` then dereferences null and throws (`PhysicalEntity.cs:98-102`), and the screen's `UnloadContent` throws before `ContentUnloaded` is set. Entities are kind tags in this model, without textures, so that failure path is not modelled.
- BaseScreens.BaseScreen.Terminate: always sets `RequestDeletion`. When the screen's `UnloadContent` throws as described on the line above, the framework's `Terminate` throws before `RequestDeletion` is set, so `ScreenSystem.Update` never removes the screen. That path is not modelled.
- **Integer width.** `Rectangle` fields are 32-bit `int`s in MonoGame, and the `(int)` cast of a float outside their range is undefined in C#. `Geometry.Trunc`, `MoveableEntities.RectangleFor` and `Geometry.Rect` use unbounded integers. Overflow of a rectangle's coordinates is not modelled.
- **Concurrency.** There is none in the framework.
