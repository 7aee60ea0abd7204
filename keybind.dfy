/** Keybind: an action name and the inputs that trigger it. */
module Keybinds {
  import opened Inputs
  import W = Wrappers

  /** Every input refreshed from the two snapshots, in the same order. */
  function RefreshAll(inputs: seq<Input>, previousKeys: set<Key>, currentKeys: set<Key>): (r: seq<Input>)
    ensures |r| == |inputs|
    ensures forall i | 0 <= i < |inputs| :: r[i] == Refreshed(inputs[i], previousKeys, currentKeys)
  {
    if inputs == [] then []
    else [Refreshed(inputs[0], previousKeys, currentKeys)] + RefreshAll(inputs[1..], previousKeys, currentKeys)
  }

  /** Refreshing twice from the same snapshots gives what refreshing once gives, so a
      keybind that is updated twice in one pass ends as if it were updated once. */
  lemma RefreshAllIdempotent(inputs: seq<Input>, previousKeys: set<Key>, currentKeys: set<Key>)
    ensures RefreshAll(RefreshAll(inputs, previousKeys, currentKeys), previousKeys, currentKeys) ==
            RefreshAll(inputs, previousKeys, currentKeys)
  {
  }

  /** Some input has mode `m` (Enumerable.Any). */
  function HasMode(inputs: seq<Input>, m: InputMode): (r: bool)
    ensures r <==> exists i | 0 <= i < |inputs| :: inputs[i].mode == m
  {
    if inputs == [] then false
    else inputs[0].mode == m || HasMode(inputs[1..], m)
  }

  /** Some input is active (neither Released nor None): the test a keybind must pass to
      be handed to an entity's input handler. */
  function HasActiveInput(inputs: seq<Input>): (r: bool)
    ensures r <==> exists i | 0 <= i < |inputs| :: IsActive(inputs[i].mode)
    ensures inputs == [] ==> !r
  {
    if inputs == [] then false
    else IsActive(inputs[0].mode) || HasActiveInput(inputs[1..])
  }

  class Keybind {
    const action: string
    var inputs: seq<Input>

    /** A keybind starts with no inputs, or with the initial input alone. */
    constructor (action: string, initialInput: W.Option<Input>)
      ensures this.action == action
      ensures inputs == if initialInput.Some? then [initialInput.value] else []
    {
      this.action := action;
      inputs := [];
      new;
      if initialInput.Some? {
        inputs := inputs + [initialInput.value];
      }
    }

    /** Refreshes the mode of every input from the input system; keys and order stay. */
    method Update(inputSystem: InputSystem)
      modifies this`inputs
      ensures inputs == RefreshAll(old(inputs), inputSystem.previous.keys, inputSystem.current.keys)
    {
      var i := 0;
      while i < |inputs|
        invariant 0 <= i <= |inputs| == |old(inputs)|
        invariant forall j | 0 <= j < i ::
          inputs[j] == Refreshed(old(inputs)[j], inputSystem.previous.keys, inputSystem.current.keys)
        invariant forall j | i <= j < |inputs| :: inputs[j] == old(inputs)[j]
      {
        inputs := inputs[i := Input(inputs[i].key, inputSystem.GetKeyState(inputs[i].key))];
        i := i + 1;
      }
    }

    function CheckMode(m: InputMode): (r: bool)
      reads this`inputs
      ensures r <==> exists i | 0 <= i < |inputs| :: inputs[i].mode == m
    {
      HasMode(inputs, m)
    }

    /** Appends an input at the end. */
    method Add(input: Input)
      modifies this`inputs
      ensures inputs == old(inputs) + [input]
    {
      inputs := inputs + [input];
    }
  }
}
