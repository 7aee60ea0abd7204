/** BaseScreen: a screen holding game entities and text entities. Updating a screen prunes
    the entities whose deletion was requested and hands the unfrozen ones to the abstract
    UpdateScreen; drawing hands the visible ones to the abstract DrawScreen. The abstract
    members (LoadEntityContent, UpdateScreen, DrawScreen) and the content unloading of the
    entities are recorded as calls. */
module BaseScreens {
  import opened GameEntities
  import opened InputMaps

  /** The two entity lists handed to UpdateScreen or DrawScreen. */
  datatype EntityLists = EntityLists(entities: seq<GameEntity>, textEntities: seq<GameEntity>)

  class BaseScreen {
    const acceptsInput: bool
    const inputMap: InputMap
    var contentLoaded: bool
    var contentUnloaded: bool
    // The GameEntity part of the screen.
    var isFrozen: bool
    var isHidden: bool
    var requestDeletion: bool
    var initialized: bool

    var entities: seq<GameEntity>
    var textEntities: seq<GameEntity>

    /** The calls of the abstract members so far, and the entities whose content has been
        unloaded, in order. */
    ghost var loadEntityContentCalls: nat
    ghost var updateScreenCalls: seq<EntityLists>
    ghost var drawScreenCalls: seq<EntityLists>
    ghost var unloadedEntities: seq<GameEntity>

    /** Text entities are in the text list and only there. */
    ghost predicate Routed()
      reads this
    {
      (forall e | e in textEntities :: e.kind == Text) &&
      (forall e | e in entities :: e.kind != Text)
    }

    constructor (acceptsInput: bool, isFrozen: bool, isHidden: bool)
      ensures this.acceptsInput == acceptsInput && this.isFrozen == isFrozen && this.isHidden == isHidden
      ensures !requestDeletion && !initialized && !contentLoaded && !contentUnloaded
      ensures entities == [] && textEntities == [] && Routed()
      ensures fresh(inputMap) && inputMap.keybinds == [] && inputMap.Valid()
      ensures loadEntityContentCalls == 0 && updateScreenCalls == [] && drawScreenCalls == []
      ensures unloadedEntities == []
    {
      this.acceptsInput := acceptsInput;
      this.isFrozen := isFrozen;
      this.isHidden := isHidden;
      requestDeletion := false;
      initialized := false;
      contentLoaded, contentUnloaded := false, false;
      inputMap := new InputMap();
      entities, textEntities := [], [];
      loadEntityContentCalls := 0;
      updateScreenCalls, drawScreenCalls := [], [];
      unloadedEntities := [];
    }

    /** LoadEntityContent, then the screen counts as loaded. */
    method LoadContent()
      modifies this`loadEntityContentCalls, this`contentLoaded
      ensures loadEntityContentCalls == old(loadEntityContentCalls) + 1
      ensures contentLoaded
    {
      loadEntityContentCalls := loadEntityContentCalls + 1;
      contentLoaded := true;
    }

    method Initialize()
      modifies this`initialized
      ensures initialized
    {
      initialized := true;
    }

    /** Unloads the physical entities of the entity list, then the text entities. */
    method UnloadContent()
      modifies this`unloadedEntities, this`contentUnloaded
      ensures unloadedEntities == old(unloadedEntities) + OfKind(entities, Physical) + textEntities
      ensures contentUnloaded
    {
      unloadedEntities := unloadedEntities + OfKind(entities, Physical);
      unloadedEntities := unloadedEntities + textEntities;
      contentUnloaded := true;
    }

    /** Unloads the content and asks to be deleted; the screen is no longer initialized. */
    method Terminate()
      modifies this`unloadedEntities, this`contentUnloaded, this`requestDeletion, this`initialized
      ensures unloadedEntities == old(unloadedEntities) + OfKind(entities, Physical) + textEntities
      ensures contentUnloaded && requestDeletion && !initialized
    {
      UnloadContent();
      requestDeletion := true;
      initialized := false;
    }

    /** Removes the entities whose deletion was requested from both lists, then hands the
        unfrozen survivors to UpdateScreen. */
    method UpdateEntity()
      modifies this`entities, this`textEntities, this`updateScreenCalls
      ensures entities == old(Surviving(entities)) && textEntities == old(Surviving(textEntities))
      ensures updateScreenCalls == old(updateScreenCalls) + [EntityLists(Unfrozen(entities), Unfrozen(textEntities))]
      ensures old(Routed()) ==> Routed()
    {
      entities := Surviving(entities);
      textEntities := Surviving(textEntities);
      var updateable := Unfrozen(entities);
      var updateableText := Unfrozen(textEntities);
      label Pruned:
      updateScreenCalls := updateScreenCalls + [EntityLists(updateable, updateableText)];
      UnfrozenFramed@Pruned(entities);
      UnfrozenFramed@Pruned(textEntities);
    }

    /** GameEntity.Update: nothing happens to a frozen screen. */
    method Update()
      modifies this`entities, this`textEntities, this`updateScreenCalls
      ensures entities == if isFrozen then old(entities) else old(Surviving(entities))
      ensures textEntities == if isFrozen then old(textEntities) else old(Surviving(textEntities))
      ensures updateScreenCalls == old(updateScreenCalls) +
        if isFrozen then [] else [EntityLists(Unfrozen(entities), Unfrozen(textEntities))]
    {
      if isFrozen {
        return;
      }
      UpdateEntity();
    }

    /** Hands the entities that are not hidden to DrawScreen; the lists stay as they are. */
    method DrawEntity()
      modifies this`drawScreenCalls
      ensures drawScreenCalls == old(drawScreenCalls) + [EntityLists(Visible(entities), Visible(textEntities))]
    {
      var drawable := Visible(entities);
      var drawableText := Visible(textEntities);
      label Filtered:
      drawScreenCalls := drawScreenCalls + [EntityLists(drawable, drawableText)];
      VisibleFramed@Filtered(entities);
      VisibleFramed@Filtered(textEntities);
    }

    /** GameEntity.Draw: nothing happens to a hidden screen. */
    method Draw()
      modifies this`drawScreenCalls
      ensures isHidden ==> drawScreenCalls == old(drawScreenCalls)
      ensures !isHidden ==>
        drawScreenCalls == old(drawScreenCalls) + [EntityLists(Visible(entities), Visible(textEntities))]
    {
      if isHidden {
        return;
      }
      DrawEntity();
    }

    /** A text entity goes to the text list, any other entity to the entity list. */
    method AddEntity(e: GameEntity)
      modifies this`entities, this`textEntities
      ensures e.kind == Text ==> textEntities == old(textEntities) + [e] && entities == old(entities)
      ensures e.kind != Text ==> entities == old(entities) + [e] && textEntities == old(textEntities)
      ensures old(Routed()) ==> Routed()
    {
      if e.kind == Text {
        textEntities := textEntities + [e];
      } else {
        entities := entities + [e];
      }
    }
  }
}
