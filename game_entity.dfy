/** GameEntity: the lifecycle flags every entity carries and the guards that keep frozen
    entities from updating and hidden entities from drawing. The entity's own update and
    draw behaviour is abstract in the framework; here each call to it is recorded. */
module GameEntities {

  /** The run-time type of an entity, as far as screens tell entities apart
      (BaseScreen routes TextEntity objects to their own list and unloads the content of
      PhysicalEntity and TextEntity objects). */
  datatype EntityKind = Plain | Physical | Text

  class GameEntity {
    const kind: EntityKind
    var isFrozen: bool
    var isHidden: bool
    var requestDeletion: bool
    var initialized: bool
    /** How often the abstract UpdateEntity and DrawEntity have been called. */
    var updateEntityCalls: nat
    var drawEntityCalls: nat

    constructor (kind: EntityKind)
      ensures this.kind == kind
      ensures !initialized && !isFrozen && !isHidden && !requestDeletion
      ensures updateEntityCalls == 0 && drawEntityCalls == 0
    {
      this.kind := kind;
      isFrozen, isHidden, requestDeletion := false, false, false;
      initialized := false;
      updateEntityCalls, drawEntityCalls := 0, 0;
    }

    method Initialize()
      modifies this`initialized
      ensures initialized
    {
      initialized := true;
    }

    method Terminate()
      modifies this`initialized
      ensures !initialized
    {
      initialized := false;
    }

    /** Runs UpdateEntity exactly once unless the entity is frozen. */
    method Update()
      modifies this`updateEntityCalls
      ensures updateEntityCalls == old(updateEntityCalls) + (if isFrozen then 0 else 1)
    {
      if isFrozen {
        return;
      }
      updateEntityCalls := updateEntityCalls + 1;
    }

    /** Runs DrawEntity exactly once unless the entity is hidden. */
    method Draw()
      modifies this`drawEntityCalls
      ensures drawEntityCalls == old(drawEntityCalls) + (if isHidden then 0 else 1)
    {
      if isHidden {
        return;
      }
      drawEntityCalls := drawEntityCalls + 1;
    }
  }

  /** The entities of `s` whose deletion has not been requested, in order (RemoveAll). */
  function Surviving(s: seq<GameEntity>): (r: seq<GameEntity>)
    reads s`requestDeletion
    ensures |r| <= |s|
    ensures forall e | e in r :: e in s && !e.requestDeletion
    ensures forall e | e in s && !e.requestDeletion :: e in r
  {
    if s == [] then [] else (if s[0].requestDeletion then [] else [s[0]]) + Surviving(s[1..])
  }

  /** The entities of `s` that are not frozen, in order. */
  function Unfrozen(s: seq<GameEntity>): (r: seq<GameEntity>)
    reads s`isFrozen
    ensures |r| <= |s|
    ensures forall e | e in r :: e in s && !e.isFrozen
    ensures forall e | e in s && !e.isFrozen :: e in r
  {
    if s == [] then [] else (if s[0].isFrozen then [] else [s[0]]) + Unfrozen(s[1..])
  }

  /** The entities of `s` that are not hidden, in order. */
  function Visible(s: seq<GameEntity>): (r: seq<GameEntity>)
    reads s`isHidden
    ensures |r| <= |s|
    ensures forall e | e in r :: e in s && !e.isHidden
    ensures forall e | e in s && !e.isHidden :: e in r
  {
    if s == [] then [] else (if s[0].isHidden then [] else [s[0]]) + Visible(s[1..])
  }

  /** The entities of `s` whose kind is `k`, in order (Enumerable.OfType). */
  function OfKind(s: seq<GameEntity>, k: EntityKind): (r: seq<GameEntity>)
    ensures |r| <= |s|
    ensures forall e | e in r :: e in s && e.kind == k
    ensures forall e | e in s && e.kind == k :: e in r
  {
    if s == [] then [] else (if s[0].kind == k then [s[0]] else []) + OfKind(s[1..], k)
  }

  /** The filters depend on nothing but the flag they test. */
  twostate lemma {:induction false} UnfrozenFramed(s: seq<GameEntity>)
    requires forall e | e in s :: e.isFrozen == old(e.isFrozen)
    ensures Unfrozen(s) == old(Unfrozen(s))
  {
    if s != [] {
      UnfrozenFramed(s[1..]);
    }
  }

  twostate lemma {:induction false} VisibleFramed(s: seq<GameEntity>)
    requires forall e | e in s :: e.isHidden == old(e.isHidden)
    ensures Visible(s) == old(Visible(s))
  {
    if s != [] {
      VisibleFramed(s[1..]);
    }
  }

  /** The filters keep relative order: filtering a concatenation filters each part. */
  lemma {:induction false} SurvivingDistributes(a: seq<GameEntity>, b: seq<GameEntity>)
    ensures Surviving(a + b) == Surviving(a) + Surviving(b)
  {
    if a == [] {
      assert a + b == b;
    } else {
      assert (a + b)[0] == a[0];
      assert (a + b)[1..] == a[1..] + b;
      SurvivingDistributes(a[1..], b);
    }
  }

  lemma {:induction false} UnfrozenDistributes(a: seq<GameEntity>, b: seq<GameEntity>)
    ensures Unfrozen(a + b) == Unfrozen(a) + Unfrozen(b)
  {
    if a == [] {
      assert a + b == b;
    } else {
      assert (a + b)[0] == a[0];
      assert (a + b)[1..] == a[1..] + b;
      UnfrozenDistributes(a[1..], b);
    }
  }

  lemma {:induction false} VisibleDistributes(a: seq<GameEntity>, b: seq<GameEntity>)
    ensures Visible(a + b) == Visible(a) + Visible(b)
  {
    if a == [] {
      assert a + b == b;
    } else {
      assert (a + b)[0] == a[0];
      assert (a + b)[1..] == a[1..] + b;
      VisibleDistributes(a[1..], b);
    }
  }

  lemma {:induction false} OfKindDistributes(a: seq<GameEntity>, b: seq<GameEntity>, k: EntityKind)
    ensures OfKind(a + b, k) == OfKind(a, k) + OfKind(b, k)
  {
    if a == [] {
      assert a + b == b;
    } else {
      assert (a + b)[0] == a[0];
      assert (a + b)[1..] == a[1..] + b;
      OfKindDistributes(a[1..], b, k);
    }
  }

  /** Filtering is idempotent and leaves an all-passing list as it is. */
  lemma {:induction false} SurvivingIdempotent(s: seq<GameEntity>)
    ensures Surviving(Surviving(s)) == Surviving(s)
  {
    if s != [] {
      SurvivingIdempotent(s[1..]);
      if !s[0].requestDeletion {
        var t := [s[0]] + Surviving(s[1..]);
        assert t[0] == s[0] && t[1..] == Surviving(s[1..]);
        assert Surviving(s) == t;
        assert Surviving(t) == [t[0]] + Surviving(t[1..]);
      } else {
        assert Surviving(s) == [] + Surviving(s[1..]) == Surviving(s[1..]);
      }
    }
  }
}
