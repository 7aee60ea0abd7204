/** InputMap: the table of keybinds of one entity or screen, keyed by action name. The
    table is a list; inserting an action extends the first keybind of that name or
    appends a new keybind. */
module InputMaps {
  import opened Inputs
  import opened Keybinds
  import W = Wrappers

  /** The contents of one keybind: its action name and its inputs. */
  datatype Binding = Binding(action: string, inputs: seq<Input>)

  /** The position of the first binding named `a` (Enumerable.FirstOrDefault). */
  function FirstNamed(bs: seq<Binding>, a: string): (r: W.Option<nat>)
    ensures r.Some? ==> r.value < |bs| && bs[r.value].action == a
    ensures r.Some? ==> forall j | 0 <= j < r.value :: bs[j].action != a
    ensures r.None? <==> forall j | 0 <= j < |bs| :: bs[j].action != a
  {
    if bs == [] then W.None
    else if bs[0].action == a then W.Some(0)
    else match FirstNamed(bs[1..], a) {
      case None => W.None
      case Some(i) => W.Some(i + 1)
    }
  }

  /** The inputs of the first binding named `a`, or no inputs when there is none. */
  function Lookup(bs: seq<Binding>, a: string): (r: seq<Input>)
    ensures forall i | 0 <= i < |bs| && bs[i].action == a && (forall j | 0 <= j < i :: bs[j].action != a) ::
      r == bs[i].inputs
    ensures (forall j | 0 <= j < |bs| :: bs[j].action != a) ==> r == []
  {
    match FirstNamed(bs, a) {
      case None => []
      case Some(i) => bs[i].inputs
    }
  }

  /** The table after NewAction(a, input). */
  function WithAction(bs: seq<Binding>, a: string, input: Input): (r: seq<Binding>)
    ensures |r| == |bs| || |r| == |bs| + 1
    ensures forall i | 0 <= i < |bs| :: r[i].action == bs[i].action
    ensures forall i | 0 <= i < |bs| && bs[i].action != a :: r[i] == bs[i]
    ensures |r| == |bs| + 1 <==> forall i | 0 <= i < |bs| :: bs[i].action != a
    ensures |r| == |bs| + 1 ==> r[|bs|] == Binding(a, [input])
  {
    match FirstNamed(bs, a) {
      case None => bs + [Binding(a, [input])]
      case Some(i) => bs[i := Binding(a, bs[i].inputs + [input])]
    }
  }

  /** The table after Update: every input of every binding refreshed. */
  function RefreshBindings(bs: seq<Binding>, previousKeys: set<Key>, currentKeys: set<Key>): (r: seq<Binding>)
    ensures |r| == |bs|
    ensures forall i | 0 <= i < |bs| ::
      r[i] == Binding(bs[i].action, RefreshAll(bs[i].inputs, previousKeys, currentKeys))
  {
    if bs == [] then []
    else
      [Binding(bs[0].action, RefreshAll(bs[0].inputs, previousKeys, currentKeys))] +
      RefreshBindings(bs[1..], previousKeys, currentKeys)
  }

  /** No two bindings share an action name. */
  predicate DistinctActions(bs: seq<Binding>) {
    forall i, j | 0 <= i < j < |bs| :: bs[i].action != bs[j].action
  }

  /** The contents of a list of keybind objects, in order. */
  function BindingsOf(ks: seq<Keybind>): (r: seq<Binding>)
    reads ks`inputs
    ensures |r| == |ks|
    ensures forall i | 0 <= i < |ks| :: r[i] == Binding(ks[i].action, ks[i].inputs)
  {
    if ks == [] then [] else [Binding(ks[0].action, ks[0].inputs)] + BindingsOf(ks[1..])
  }

  /** The contents depend on nothing but the inputs of the keybinds. */
  twostate lemma {:induction false} BindingsOfFramed(ks: seq<Keybind>)
    requires forall k | k in ks :: k.inputs == old(k.inputs)
    ensures BindingsOf(ks) == old(BindingsOf(ks))
  {
    if ks != [] {
      BindingsOfFramed(ks[1..]);
    }
  }

  class InputMap {
    var keybinds: seq<Keybind>

    /** Each keybind object occurs once in the list. */
    ghost predicate Valid()
      reads this
    {
      forall i, j | 0 <= i < j < |keybinds| :: keybinds[i] != keybinds[j]
    }

    ghost function Bindings(): seq<Binding>
      reads this, keybinds
    {
      BindingsOf(keybinds)
    }

    constructor ()
      ensures keybinds == [] && Valid()
    {
      keybinds := [];
    }

    /** Keybinds.FirstOrDefault(k => k.Action == action), as a position. */
    method FindKeybind(action: string) returns (index: W.Option<nat>)
      ensures index == FirstNamed(Bindings(), action)
    {
      var i := 0;
      while i < |keybinds|
        invariant 0 <= i <= |keybinds|
        invariant forall j | 0 <= j < i :: keybinds[j].action != action
      {
        if keybinds[i].action == action {
          return W.Some(i);
        }
        i := i + 1;
      }
      return W.None;
    }

    /** Appends `input` to the first keybind named `action`, or appends a new keybind
        holding only `input`. */
    method NewAction(action: string, input: Input)
      requires Valid()
      modifies this, keybinds
      ensures Valid()
      ensures Bindings() == WithAction(old(Bindings()), action, input)
    {
      var existing := FindKeybind(action);
      if existing.Some? {
        ExtendKeybind(existing.value, input);
      } else {
        AppendKeybind(action, input);
      }
    }

    /** The existing-keybind branch of NewAction: the keybind at `index` gets `input`. */
    method ExtendKeybind(index: nat, input: Input)
      requires Valid() && index < |keybinds|
      modifies keybinds[index]
      ensures Valid()
      ensures Bindings() ==
        old(Bindings())[index := Binding(old(Bindings())[index].action, old(Bindings())[index].inputs + [input])]
    {
      var k := keybinds[index];
      k.Add(input);
      assert Bindings() == old(Bindings())[index := Binding(k.action, old(k.inputs) + [input])];
    }

    /** The new-keybind branch of NewAction: a fresh keybind holding only `input`. */
    method AppendKeybind(action: string, input: Input)
      requires Valid()
      modifies this`keybinds
      ensures Valid()
      ensures Bindings() == old(Bindings()) + [Binding(action, [input])]
    {
      var k := new Keybind(action, W.Some(input));
      keybinds := keybinds + [k];
      assert Bindings() == old(Bindings()) + [Binding(action, [input])];
    }

    /** The overload taking a keyboard key: a new input for the key, in the default mode. */
    method NewKeyAction(action: string, k: Key)
      requires Valid()
      modifies this, keybinds
      ensures Valid()
      ensures Bindings() == WithAction(old(Bindings()), action, NewInput(k))
    {
      var input := NewInput(k);
      NewAction(action, input);
    }

    /** The inputs of the first keybind named `actionName`, or none. */
    method GetKeybinds(actionName: string) returns (inputs: seq<Input>)
      ensures inputs == Lookup(Bindings(), actionName)
    {
      var existing := FindKeybind(actionName);
      inputs := if existing.Some? then keybinds[existing.value].inputs else [];
    }

    /** Updates every keybind from the input system; the list itself stays as it is. */
    method Update(inputSystem: InputSystem)
      requires Valid()
      modifies keybinds
      ensures Bindings() == RefreshBindings(old(Bindings()), inputSystem.previous.keys, inputSystem.current.keys)
    {
      var i := 0;
      while i < |keybinds|
        invariant 0 <= i <= |keybinds|
        invariant forall j | 0 <= j < i ::
          keybinds[j].inputs == RefreshAll(old(keybinds[j].inputs), inputSystem.previous.keys, inputSystem.current.keys)
        invariant forall j | i <= j < |keybinds| :: keybinds[j].inputs == old(keybinds[j].inputs)
      {
        keybinds[i].Update(inputSystem);
        i := i + 1;
      }
    }
  }

  // ---------------------------------------------------------------------------
  // Properties of the table

  /** NewAction on an action already present extends its first keybind at the end and
      leaves the number of keybinds and every other keybind as they were. */
  lemma NewActionExisting(bs: seq<Binding>, a: string, input: Input, i: nat)
    requires i < |bs| && bs[i].action == a && forall j | 0 <= j < i :: bs[j].action != a
    ensures var r := WithAction(bs, a, input);
      |r| == |bs| && r[i] == Binding(a, bs[i].inputs + [input]) &&
      forall j | 0 <= j < |bs| && j != i :: r[j] == bs[j]
  {
    var f := FirstNamed(bs, a);
    assert f.Some?;
    assert f.value == i;
  }

  /** NewAction on an unknown action appends a keybind holding only the new input. */
  lemma NewActionUnknown(bs: seq<Binding>, a: string, input: Input)
    requires forall j | 0 <= j < |bs| :: bs[j].action != a
    ensures WithAction(bs, a, input) == bs + [Binding(a, [input])]
  {
  }

  /** NewAction keeps action names distinct. */
  lemma NewActionKeepsDistinct(bs: seq<Binding>, a: string, input: Input)
    requires DistinctActions(bs)
    ensures DistinctActions(WithAction(bs, a, input))
  {
    var r := WithAction(bs, a, input);
    match FirstNamed(bs, a) {
      case None =>
        forall i, j | 0 <= i < j < |r|
          ensures r[i].action != r[j].action
        {
          if j == |bs| {
            assert r[i] == bs[i];
          }
        }
      case Some(k) =>
        forall i, j | 0 <= i < j < |r|
          ensures r[i].action != r[j].action
        {
          assert r[i].action == bs[i].action && r[j].action == bs[j].action;
        }
    }
  }

  /** After NewAction(a, input), looking up `a` gives its earlier inputs followed by
      `input`. */
  lemma NewActionLookup(bs: seq<Binding>, a: string, input: Input)
    ensures Lookup(WithAction(bs, a, input), a) == Lookup(bs, a) + [input]
  {
    var r := WithAction(bs, a, input);
    match FirstNamed(bs, a) {
      case None =>
        assert r[|bs|].action == a;
        assert FirstNamed(r, a) == W.Some(|bs|);
      case Some(k) =>
        assert r[k].action == a;
        assert forall j | 0 <= j < k :: r[j] == bs[j];
        assert FirstNamed(r, a) == W.Some(k);
    }
  }

  /** NewAction leaves the inputs of every other action as they were. */
  lemma NewActionLookupOther(bs: seq<Binding>, a: string, input: Input, b: string)
    requires b != a
    ensures Lookup(WithAction(bs, a, input), b) == Lookup(bs, b)
  {
    var r := WithAction(bs, a, input);
    match FirstNamed(bs, b) {
      case None =>
        assert forall j | 0 <= j < |r| :: r[j].action != b;
      case Some(m) =>
        assert r[m] == bs[m];
    }
  }

  /** Updating the table refreshes the inputs of every action and changes nothing else:
      the lookup of each action after Update is its earlier lookup refreshed. */
  lemma RefreshLookup(bs: seq<Binding>, previousKeys: set<Key>, currentKeys: set<Key>, a: string)
    ensures Lookup(RefreshBindings(bs, previousKeys, currentKeys), a) ==
      RefreshAll(Lookup(bs, a), previousKeys, currentKeys)
  {
    var r := RefreshBindings(bs, previousKeys, currentKeys);
    match FirstNamed(bs, a) {
      case None =>
        assert forall j | 0 <= j < |r| :: r[j].action != a;
      case Some(m) =>
        assert r[m].action == a;
    }
  }
}
