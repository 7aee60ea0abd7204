/** ControllableGameEntity: a moveable body steered by keyboard input. Each update runs
    the pre-movement hook, refreshes the input map and hands the keybinds that have an
    active input to the input handler, runs the post-movement hook and finally moves the
    body. The three hooks are abstract; their calls are recorded. */
module ControllableGameEntities {
  import opened Geometry
  import W = Wrappers
  import opened Inputs
  import opened Keybinds
  import opened InputMaps
  import opened MoveableEntities

  /** One step of UpdateEntity, in the order it happens. */
  datatype Phase =
    | PreMovement
    | HandleInput(availableKeybinds: seq<Keybind>)
    | PostMovement
    | Movement

  /** The keybinds with at least one input that is neither Released nor None, in order
      (the Where/Count filter of ProcessInput): exactly the keybinds with an active input
      are kept, and none of them is empty. */
  function ActiveKeybinds(ks: seq<Keybind>): (r: seq<Keybind>)
    reads ks`inputs
    ensures |r| <= |ks|
    ensures forall k | k in r :: k in ks && HasActiveInput(k.inputs) && k.inputs != []
    ensures forall k | k in ks && HasActiveInput(k.inputs) :: k in r
  {
    if ks == [] then []
    else (if HasActiveInput(ks[0].inputs) then [ks[0]] else []) + ActiveKeybinds(ks[1..])
  }

  /** The filter keeps relative order: filtering a concatenation filters each part. */
  lemma {:induction false} ActiveKeybindsDistributes(a: seq<Keybind>, b: seq<Keybind>)
    ensures ActiveKeybinds(a + b) == ActiveKeybinds(a) + ActiveKeybinds(b)
  {
    if a == [] {
      assert a + b == b;
    } else {
      assert (a + b)[0] == a[0];
      assert (a + b)[1..] == a[1..] + b;
      ActiveKeybindsDistributes(a[1..], b);
    }
  }

  /** The filter depends on nothing but the inputs of the keybinds. */
  twostate lemma {:induction false} ActiveKeybindsFramed(ks: seq<Keybind>)
    requires forall k | k in ks :: k.inputs == old(k.inputs)
    ensures ActiveKeybinds(ks) == old(ActiveKeybinds(ks))
  {
    if ks != [] {
      ActiveKeybindsFramed(ks[1..]);
    }
  }

  class ControllableGameEntity {
    /** The MoveableEntity part of the object. */
    const body: MoveableEntity
    const inputMap: InputMap
    const inputSystem: InputSystem
    /** The calls of the hooks and of the movement step so far. */
    ghost var phases: seq<Phase>

    /** The speed argument is the body's maximum speed. */
    constructor (inputSystem: InputSystem, position: Vec2, angle: real, speed: real, textureName: string,
                 cos: real -> real, sin: real -> real)
      ensures this.inputSystem == inputSystem
      ensures fresh(body) && fresh(inputMap)
      ensures body.position == position && body.angle == angle && body.maxSpeed == speed
      ensures body.textureName == textureName && body.bounds == W.None
      ensures inputMap.keybinds == [] && inputMap.Valid()
      ensures phases == []
    {
      this.inputSystem := inputSystem;
      body := new MoveableEntity(position, angle, speed, textureName, W.None, cos, sin);
      inputMap := new InputMap();
      phases := [];
    }

    /** ProcessInput: the input map is refreshed first, then filtered. */
    method ProcessInput()
      requires inputMap.Valid()
      modifies this`phases, inputMap.keybinds
      ensures inputMap.Bindings() ==
        RefreshBindings(old(inputMap.Bindings()), inputSystem.previous.keys, inputSystem.current.keys)
      ensures phases == old(phases) + [HandleInput(ActiveKeybinds(inputMap.keybinds))]
    {
      inputMap.Update(inputSystem);
      var keybinds := inputMap.keybinds;
      var available := ActiveKeybinds(keybinds);
      label Refreshed:
      phases := phases + [HandleInput(available)];
      BindingsOfFramed@Refreshed(keybinds);
    }

    /** The part of the sealed update before the movement step: PreMovement, ProcessInput,
        PostMovement. */
    method InputPhases()
      requires inputMap.Valid()
      modifies this`phases, inputMap.keybinds
      ensures inputMap.Bindings() ==
        RefreshBindings(old(inputMap.Bindings()), inputSystem.previous.keys, inputSystem.current.keys)
      ensures phases == old(phases) + [PreMovement] + [HandleInput(ActiveKeybinds(inputMap.keybinds))] + [PostMovement]
    {
      phases := phases + [PreMovement];
      ProcessInput();
      label Processed:
      phases := phases + [PostMovement];
      BindingsOfFramed@Processed(inputMap.keybinds);
      ActiveKeybindsFramed@Processed(inputMap.keybinds);
    }

    /** The sealed update: PreMovement, ProcessInput, PostMovement, then the movement step
        of the body. A game's hooks may steer the body, so the movement step is stated
        from the body's velocity, position and hit log as the hooks leave them
        (`preVelocity`, `prePosition`, `preHits`). */
    method UpdateEntity(dt: real) returns (ghost preVelocity: Vec2, ghost prePosition: Vec2, ghost preHits: seq<BoundsHit>)
      requires inputMap.Valid()
      modifies this`phases, inputMap.keybinds
      modifies body`velocity, body`position, body`rectangle, body`hits
      ensures inputMap.Bindings() ==
        RefreshBindings(old(inputMap.Bindings()), inputSystem.previous.keys, inputSystem.current.keys)
      ensures phases == old(phases) + [PreMovement] + [HandleInput(ActiveKeybinds(inputMap.keybinds))] + [PostMovement] + [Movement]
      ensures body.velocity == Add(preVelocity, Scale(body.acceleration, dt))
      ensures var moved := Add(prePosition, Scale(body.velocity, dt));
        var r := CheckBoundsOutcome(moved, RectangleFor(moved, body.origin, body.texture), body.bounds, body.origin, body.texture);
        body.position == r.position && body.rectangle == r.rectangle && body.hits == preHits + r.hits
    {
      InputPhases();
      label BeforeMove:
      preVelocity, prePosition, preHits := body.velocity, body.position, body.hits;
      body.UpdateEntity(dt);
      phases := phases + [Movement];
      BindingsOfFramed@BeforeMove(inputMap.keybinds);
      ActiveKeybindsFramed@BeforeMove(inputMap.keybinds);
    }
  }
}
