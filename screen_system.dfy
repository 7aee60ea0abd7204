/** ScreenSystem: the list of screens of a game. Each update prunes the screens whose
    deletion was requested and updates the unfrozen ones in list order; each draw draws
    the screens that are not hidden. The screens dispatched to are recorded. */
module ScreenSystems {
  import opened GameEntities
  import opened BaseScreens

  // The three filters below are GameEntities.Surviving, Unfrozen and Visible again, over
  // screens: BaseScreen repeats the GameEntity flags instead of inheriting them.

  /** The screens whose deletion has not been requested, in order (RemoveAll). */
  function SurvivingScreens(s: seq<BaseScreen>): (r: seq<BaseScreen>)
    reads s`requestDeletion
    ensures |r| <= |s|
  {
    if s == [] then [] else (if s[0].requestDeletion then [] else [s[0]]) + SurvivingScreens(s[1..])
  }

  /** The screens that are not frozen, in order. */
  function UnfrozenScreens(s: seq<BaseScreen>): (r: seq<BaseScreen>)
    reads s`isFrozen
    ensures |r| <= |s|
  {
    if s == [] then [] else (if s[0].isFrozen then [] else [s[0]]) + UnfrozenScreens(s[1..])
  }

  /** The screens that are not hidden, in order. */
  function VisibleScreens(s: seq<BaseScreen>): (r: seq<BaseScreen>)
    reads s`isHidden
    ensures |r| <= |s|
  {
    if s == [] then [] else (if s[0].isHidden then [] else [s[0]]) + VisibleScreens(s[1..])
  }

  /** Each filter keeps exactly the screens that pass its test. */
  lemma {:induction false} SurvivingScreensMembers(s: seq<BaseScreen>)
    ensures forall x | x in SurvivingScreens(s) :: x in s && !x.requestDeletion
    ensures forall x | x in s && !x.requestDeletion :: x in SurvivingScreens(s)
  {
    if s != [] {
      SurvivingScreensMembers(s[1..]);
    }
  }

  lemma {:induction false} UnfrozenScreensMembers(s: seq<BaseScreen>)
    ensures forall x | x in UnfrozenScreens(s) :: x in s && !x.isFrozen
    ensures forall x | x in s && !x.isFrozen :: x in UnfrozenScreens(s)
  {
    if s != [] {
      UnfrozenScreensMembers(s[1..]);
    }
  }

  lemma {:induction false} VisibleScreensMembers(s: seq<BaseScreen>)
    ensures forall x | x in VisibleScreens(s) :: x in s && !x.isHidden
    ensures forall x | x in s && !x.isHidden :: x in VisibleScreens(s)
  {
    if s != [] {
      VisibleScreensMembers(s[1..]);
    }
  }

  /** The filters keep relative order: filtering a concatenation filters each part. */
  lemma {:induction false} UnfrozenScreensDistributes(a: seq<BaseScreen>, b: seq<BaseScreen>)
    ensures UnfrozenScreens(a + b) == UnfrozenScreens(a) + UnfrozenScreens(b)
  {
    if a == [] {
      assert a + b == b;
    } else {
      assert (a + b)[0] == a[0];
      assert (a + b)[1..] == a[1..] + b;
      UnfrozenScreensDistributes(a[1..], b);
    }
  }

  lemma {:induction false} VisibleScreensDistributes(a: seq<BaseScreen>, b: seq<BaseScreen>)
    ensures VisibleScreens(a + b) == VisibleScreens(a) + VisibleScreens(b)
  {
    if a == [] {
      assert a + b == b;
    } else {
      assert (a + b)[0] == a[0];
      assert (a + b)[1..] == a[1..] + b;
      VisibleScreensDistributes(a[1..], b);
    }
  }

  lemma {:induction false} SurvivingScreensDistributes(a: seq<BaseScreen>, b: seq<BaseScreen>)
    ensures SurvivingScreens(a + b) == SurvivingScreens(a) + SurvivingScreens(b)
  {
    if a == [] {
      assert a + b == b;
    } else {
      assert (a + b)[0] == a[0];
      assert (a + b)[1..] == a[1..] + b;
      SurvivingScreensDistributes(a[1..], b);
    }
  }

  twostate lemma {:induction false} UnfrozenScreensFramed(s: seq<BaseScreen>)
    requires forall x | x in s :: x.isFrozen == old(x.isFrozen)
    ensures UnfrozenScreens(s) == old(UnfrozenScreens(s))
  {
    if s != [] {
      UnfrozenScreensFramed(s[1..]);
    }
  }

  twostate lemma {:induction false} VisibleScreensFramed(s: seq<BaseScreen>)
    requires forall x | x in s :: x.isHidden == old(x.isHidden)
    ensures VisibleScreens(s) == old(VisibleScreens(s))
  {
    if s != [] {
      VisibleScreensFramed(s[1..]);
    }
  }

  class ScreenSystem {
    var screens: seq<BaseScreen>
    /** The screens whose Update and whose Draw have been called, in call order. */
    ghost var updated: seq<BaseScreen>
    ghost var drawn: seq<BaseScreen>

    constructor ()
      ensures screens == [] && updated == [] && drawn == []
    {
      screens := [];
      updated, drawn := [], [];
    }

    /** Prunes the screens whose deletion was requested, then updates the unfrozen screens
        in list order. An empty system does nothing. The filter is lazy in the framework, but
        updating a screen changes no screen's isFrozen, so filtering first selects the same
        screens. */
    method Update()
      modifies this`screens, this`updated
      modifies screens`entities, screens`textEntities, screens`updateScreenCalls
      ensures old(screens) == [] ==> screens == [] && updated == old(updated)
      ensures screens == old(SurvivingScreens(screens))
      ensures forall s | s in screens :: s in old(screens) && !s.requestDeletion
      ensures updated == old(updated) + UnfrozenScreens(screens)
      ensures forall s | s in old(screens) && s !in UnfrozenScreens(screens) ::
        s.entities == old(s.entities) && s.textEntities == old(s.textEntities) &&
        s.updateScreenCalls == old(s.updateScreenCalls)
    {
      if |screens| == 0 {
        assert screens == [];
        return;
      }
      var all := screens;
      SurvivingScreensMembers(screens);
      screens := SurvivingScreens(screens);
      var remaining := screens;
      var updateable := UnfrozenScreens(screens);
      UnfrozenScreensMembers(screens);
      assert forall s | s in updateable :: s in all;
      label Pruned:
      UpdateEach(updateable, all);
      UnfrozenScreensFramed@Pruned(remaining);
    }

    /** The loop of Update: calls Update on each of `updateable`, in order. */
    method UpdateEach(updateable: seq<BaseScreen>, ghost all: seq<BaseScreen>)
      requires forall s | s in updateable :: s in all && !s.isFrozen
      modifies this`updated
      modifies all`entities, all`textEntities, all`updateScreenCalls
      ensures updated == old(updated) + updateable
      ensures forall s | s in all && s !in updateable ::
        s.entities == old(s.entities) && s.textEntities == old(s.textEntities) &&
        s.updateScreenCalls == old(s.updateScreenCalls)
    {
      var i := 0;
      while i < |updateable|
        invariant 0 <= i <= |updateable|
        invariant updated == old(updated) + updateable[..i]
        invariant forall s | s in all && s !in updateable[..i] ::
          s.entities == old(s.entities) && s.textEntities == old(s.textEntities) &&
          s.updateScreenCalls == old(s.updateScreenCalls)
      {
        var screen := updateable[i];
        assert screen in all;
        assert updateable[..i + 1] == updateable[..i] + [screen];
        screen.Update();
        updated := updated + [screen];
        i := i + 1;
      }
      assert updateable[..i] == updateable;
    }

    /** Draws the screens that are not hidden, in list order. Drawing a screen changes no
        screen's isHidden, so filtering first selects the same screens as the lazy filter. */
    method Draw()
      modifies this`drawn, screens`drawScreenCalls
      ensures drawn == old(drawn) + VisibleScreens(screens)
      ensures forall s | s in screens && s !in VisibleScreens(screens) :: s.drawScreenCalls == old(s.drawScreenCalls)
    {
      var all := screens;
      var drawable := VisibleScreens(screens);
      VisibleScreensMembers(screens);
      label Filtered:
      DrawEach(drawable, all);
      VisibleScreensFramed@Filtered(all);
    }

    /** The loop of Draw: calls Draw on each of `drawable`, in order. */
    method DrawEach(drawable: seq<BaseScreen>, ghost all: seq<BaseScreen>)
      requires forall s | s in drawable :: s in all && !s.isHidden
      modifies this`drawn, all`drawScreenCalls
      ensures drawn == old(drawn) + drawable
      ensures forall s | s in all && s !in drawable :: s.drawScreenCalls == old(s.drawScreenCalls)
    {
      var i := 0;
      while i < |drawable|
        invariant 0 <= i <= |drawable|
        invariant drawn == old(drawn) + drawable[..i]
        invariant forall s | s in all && s !in drawable[..i] :: s.drawScreenCalls == old(s.drawScreenCalls)
      {
        var screen := drawable[i];
        assert screen in all;
        assert drawable[..i + 1] == drawable[..i] + [screen];
        screen.Draw();
        drawn := drawn + [screen];
        i := i + 1;
      }
      assert drawable[..i] == drawable;
    }

    /** The screen is initialized, then appended. */
    method AddScreen(screen: BaseScreen)
      modifies this`screens, screen`initialized
      ensures screens == old(screens) + [screen]
      ensures screen.initialized
    {
      screen.Initialize();
      screens := screens + [screen];
    }

    /** The screen is terminated, which requests its deletion; it stays in the list until
        the next Update prunes it. */
    method RemoveScreen(screen: BaseScreen)
      modifies screen`unloadedEntities, screen`contentUnloaded, screen`requestDeletion, screen`initialized
      ensures screen.requestDeletion && screen.contentUnloaded && !screen.initialized
      ensures screen.unloadedEntities == old(screen.unloadedEntities) + OfKind(screen.entities, Physical) + screen.textEntities
    {
      screen.Terminate();
    }

    /** Loads the content of every screen that has not loaded it, in list order. The filter
        is checked as each screen is reached, so a screen listed twice loads once. */
    method LoadScreenContent()
      modifies screens`loadEntityContentCalls, screens`contentLoaded
      ensures forall s | s in screens :: s.contentLoaded
      ensures forall s | s in screens ::
        s.loadEntityContentCalls == old(s.loadEntityContentCalls) + if old(s.contentLoaded) then 0 else 1
    {
      var i := 0;
      while i < |screens|
        invariant 0 <= i <= |screens|
        invariant forall s | s in screens[..i] :: s.contentLoaded
        invariant forall s | s in screens ::
          s.loadEntityContentCalls == old(s.loadEntityContentCalls) +
            if old(s.contentLoaded) || (s !in screens[..i]) then 0 else 1
        invariant forall s | s in screens && s !in screens[..i] :: s.contentLoaded == old(s.contentLoaded)
      {
        var screen := screens[i];
        assert screens[..i + 1] == screens[..i] + [screen];
        if !screen.contentLoaded {
          screen.LoadContent();
        }
        i := i + 1;
      }
      assert screens[..i] == screens;
    }
  }
}
