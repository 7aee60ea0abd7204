/** Keyboard input: the state of each key between two successive keyboard snapshots,
    and the input records that keep the last mode of one key. Reading the keyboard is
    hardware access; each snapshot is supplied as the set of keys held down. */
module Inputs {

  /** Keyboard keys (the XNA Keys enumeration), by number. */
  type Key = nat

  /** The mode of a key between the previous and the current snapshot. */
  datatype InputMode = None | New | Held | Released

  /** GetKeyState on the two "is down" answers. */
  function KeyMode(previouslyDown: bool, currentlyDown: bool): (m: InputMode)
    ensures m == New <==> currentlyDown && !previouslyDown
    ensures m == Held <==> currentlyDown && previouslyDown
    ensures m == Released <==> !currentlyDown && previouslyDown
    ensures m == None <==> !currentlyDown && !previouslyDown
  {
    if currentlyDown && !previouslyDown then New
    else if currentlyDown then Held
    else if previouslyDown then Released
    else None
  }

  /** An active key is one that is down now: the modes other than Released and None. */
  predicate IsActive(m: InputMode) {
    m != Released && m != None
  }

  /** One snapshot of the keyboard. Once frozen it no longer takes new snapshots. */
  class InputState {
    var keys: set<Key>
    var isFrozen: bool

    constructor (keyboard: set<Key>)
      ensures keys == keyboard && !isFrozen
    {
      keys := keyboard;
      isFrozen := false;
    }

    method Update(keyboard: set<Key>)
      modifies this`keys
      ensures keys == if isFrozen then old(keys) else keyboard
    {
      if isFrozen {
        return;
      }
      keys := keyboard;
    }
  }

  /** The previous and the current keyboard snapshot. */
  class InputSystem {
    var current: InputState
    var previous: InputState

    /** Each of the two snapshots reads the keyboard once. */
    constructor (previousKeyboard: set<Key>, currentKeyboard: set<Key>)
      ensures previous.keys == previousKeyboard && current.keys == currentKeyboard
      ensures !previous.isFrozen && !current.isFrozen && fresh(current) && fresh(previous)
    {
      current := new InputState(currentKeyboard);
      previous := new InputState(previousKeyboard);
    }

    /** The old current snapshot becomes the previous one, frozen, and a fresh snapshot
        of the keyboard becomes current. */
    method Update(keyboard: set<Key>)
      modifies this, current`isFrozen
      ensures previous == old(current) && previous.isFrozen && previous.keys == old(current.keys)
      ensures fresh(current) && current.keys == keyboard && !current.isFrozen
    {
      current.isFrozen := true;
      previous := current;
      current := new InputState(keyboard);
    }

    /** The mode of a key between the two snapshots: active exactly when the key is down
        now, Released exactly when it was down before and is up now. */
    function GetKeyState(k: Key): (m: InputMode)
      reads this, current, previous
      ensures IsActive(m) <==> k in current.keys
      ensures m == Released <==> k in previous.keys && k !in current.keys
    {
      KeyMode(k in previous.keys, k in current.keys)
    }
  }

  /** Input: one key and the mode it had at its last update. */
  datatype Input = Input(key: Key, mode: InputMode)

  /** The mode of a freshly created input: the default value of the InputMode enumeration. */
  const DefaultMode: InputMode := None

  /** new Input(key) */
  function NewInput(k: Key): Input {
    Input(k, DefaultMode)
  }

  /** Input.Update: the mode is refreshed from the two snapshots, the key is kept. */
  function Refreshed(i: Input, previousKeys: set<Key>, currentKeys: set<Key>): (r: Input)
    ensures r.key == i.key
    ensures IsActive(r.mode) <==> i.key in currentKeys
  {
    Input(i.key, KeyMode(i.key in previousKeys, i.key in currentKeys))
  }
}
