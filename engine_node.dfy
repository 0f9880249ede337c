/**
 The terrain engine node as an object: its fields are the bookkeeping the
 node's methods update in place. The constructor establishes
 `EngineModel.Initial`, and each method that stands for a `Call` is proved to
 do to the whole state exactly what `EngineModel.Step` says of that call.
 `RemoveInPlace` (the `std::remove` loop) and `RemoveTilePatchCallbackErased`
 (the corrected removal) have no `Call`; their contracts give `StdRemove` and
 `EraseRemove` of the old list instead. A sequence of `Call` methods therefore
 walks the states `EngineModel.Run` describes; that last step is reasoning
 from these contracts, not a lemma.
 */
module TerrainEngine {
  import opened Wrappers
  import opened Sequences
  import opened EngineModel

  class TerrainEngineNode {
    var effects: seq<EffectId>
    var dirtyCount: nat
    var requireElevationTextures: bool
    var requireNormalTextures: bool
    var requireParentTextures: bool
    /** Whether `setMap` has bound a map. */
    var mapBound: bool
    /**
     The image-layer controller's subscriptions, one entry per `addCallback` on a
     layer not yet undone by a `removeCallback`. They live in the layers; they
     are kept here because only this node adds and removes them.
     */
    var subs: multiset<LayerId>
    var createTileModelCallbacks: seq<CallbackId>
    var tilePatchCallbacks: seq<CallbackId>
    var initStage: InitStage
    /** The outside effects of the node's calls, in order. */
    ghost var log: seq<Event>

    ghost function Model(): State
      reads this
    {
      State(effects, dirtyCount, Flags(), mapBound, subs, createTileModelCallbacks,
            tilePatchCallbacks, initStage, log)
    }

    /** The requirements the node hands to the tile-model factory. */
    function Flags(): Requirements
      reads this
    {
      Requirements(requireElevationTextures, requireNormalTextures, requireParentTextures)
    }

    constructor ()
      ensures Model() == Initial()
    {
      effects := [];
      dirtyCount := 0;
      requireElevationTextures, requireNormalTextures, requireParentTextures := false, false, false;
      mapBound := false;
      subs := multiset{};
      createTileModelCallbacks, tilePatchCallbacks := [], [];
      initStage := InitNone;
      log := [];
    }

    method AddEffect(effect: Option<EffectId>)
      modifies this
      ensures Model() == Step(old(Model()), Call.AddEffect(effect))
    {
      if effect.Some? {
        effects := effects + [effect.value];
        log := log + [Install(effect.value)];
        log := log + [DirtyState];
      }
    }

    method RemoveEffect(effect: Option<EffectId>)
      modifies this
      ensures Model() == Step(old(Model()), Call.RemoveEffect(effect))
    {
      if effect.Some? {
        log := log + [Uninstall(effect.value)];
        var i := Find(effects, effect.value);
        if i < |effects| {
          effects := effects[..i] + effects[i + 1..];
        }
        log := log + [DirtyState];
      }
    }

    method RequireNormalTextures()
      modifies this
      ensures Model() == Step(old(Model()), Call.RequireNormalTextures)
    {
      requireNormalTextures := true;
      DirtyTerrain();
    }

    method RequireElevationTextures()
      modifies this
      ensures Model() == Step(old(Model()), Call.RequireElevationTextures)
    {
      requireElevationTextures := true;
      DirtyTerrain();
    }

    method RequireParentTextures()
      modifies this
      ensures Model() == Step(old(Model()), Call.RequireParentTextures)
    {
      requireParentTextures := true;
      DirtyTerrain();
    }

    /** Counts the request; the request goes out to the views only when none was pending. */
    method RequestRedraw()
      modifies this
      ensures Model() == Step(old(Model()), Call.RequestRedraw)
    {
      var pending := dirtyCount;
      dirtyCount := dirtyCount + 1;
      if pending == 0 {
        log := log + [RedrawSignal];
      }
    }

    method DirtyTerrain()
      modifies this
      ensures Model() == Step(old(Model()), Call.DirtyTerrain)
    {
      RequestRedraw();
    }

    /**
     Binds the map and subscribes the image-layer controller to every image layer
     the map holds at this moment; `None` is a null map, which is ignored.
     */
    method SetMap(newMap: Option<seq<Layer>>)
      modifies this
      ensures Model() == Step(old(Model()), Call.SetMap(newMap))
    {
      if newMap.Some? {
        mapBound := true;
        var bound := Subscribe(subs, newMap.value);
        subs := bound;
        initStage := InitPostInitComplete;
      }
    }

    method OnMapModelChanged(change: MapModelChange)
      modifies this
      ensures Model() == Step(old(Model()), Call.OnMapModelChanged(change))
    {
      ghost var s1 := Model().(subs := SubsAfter(subs, change), log := log + ElevationNotice(change));
      assert Step(Model(), Call.OnMapModelChanged(change)) == Redraw(s1);
      if change.action == AddLayer && change.ImageLayer().Some? {
        subs := subs + multiset{change.ImageLayer().value.id};
      } else if change.action == RemoveLayer && change.ImageLayer().Some? {
        subs := subs - multiset{change.ImageLayer().value.id};
      }
      if change.ElevationLayer().Some? {
        log := log + [ElevationChanged];
      }
      assert Model() == s1;
      RequestRedraw();
      assert Model() == Step(s1, Call.RequestRedraw);
    }

    /**
     Asks the factory for a model under the node's current requirements and, only
     when it builds one, fires every registered callback in order.
     */
    method CreateTileModel(factory: Requirements -> Option<TileModel>) returns (model: Option<TileModel>)
      modifies this
      ensures model == factory(old(Flags()))
      ensures Model() == Step(old(Model()), Call.CreateTileModel(model))
    {
      model := factory(Flags());
      if model.Some? {
        ghost var fired: seq<Event> := [];
        var i := 0;
        while i < |createTileModelCallbacks|
          invariant i <= |createTileModelCallbacks|
          invariant fired == FireLog(createTileModelCallbacks[..i])
        {
          assert createTileModelCallbacks[..i + 1][..i] == createTileModelCallbacks[..i];
          fired := fired + [Fired(createTileModelCallbacks[i])];
          i := i + 1;
        }
        assert createTileModelCallbacks[..i] == createTileModelCallbacks;
        log := log + fired;
      }
    }

    method AddCreateTileModelCallback(cb: CallbackId)
      modifies this
      ensures Model() == Step(old(Model()), Call.AddCreateTileModelCallback(cb))
    {
      createTileModelCallbacks := createTileModelCallbacks + [cb];
    }

    /** Erases the first registration of `cb` and stops there. */
    method RemoveCreateTileModelCallback(cb: CallbackId)
      modifies this
      ensures Model() == Step(old(Model()), Call.RemoveCreateTileModelCallback(cb))
    {
      var i := 0;
      while i < |createTileModelCallbacks|
        invariant i <= |createTileModelCallbacks|
        invariant createTileModelCallbacks == old(createTileModelCallbacks)
        invariant forall j :: 0 <= j < i ==> createTileModelCallbacks[j] != cb
        invariant Model() == old(Model())
      {
        if createTileModelCallbacks[i] == cb {
          assert i == IndexOf(createTileModelCallbacks, cb);
          createTileModelCallbacks := createTileModelCallbacks[..i] + createTileModelCallbacks[i + 1..];
          return;
        }
        i := i + 1;
      }
      assert cb !in createTileModelCallbacks;
    }

    /** One visit by the host: an event traversal resets the redraw counter. */
    method Traverse(visitor: VisitorKind)
      modifies this
      ensures Model() == Step(old(Model()), Call.Traverse(visitor))
    {
      if visitor == EventVisitor {
        dirtyCount := 0;
      }
    }

    method AddTilePatchCallback(cb: CallbackId)
      modifies this
      ensures Model() == Step(old(Model()), Call.AddTilePatchCallback(cb))
    {
      tilePatchCallbacks := tilePatchCallbacks + [cb];
    }

    /**
     The in-place loop of `std::remove`: every callback other than `cb` is copied
     forward over the matches; returns the new logical end, which is
     `|tilePatchCallbacks|` less the number of registrations of `cb`.
     */
    method RemoveInPlace(cb: CallbackId) returns (newEnd: nat)
      modifies this
      ensures Model() == old(Model()).(patchCallbacks := StdRemove(old(tilePatchCallbacks), cb))
      ensures newEnd == |old(tilePatchCallbacks)| - multiset(old(tilePatchCallbacks))[cb]
    {
      ghost var orig := tilePatchCallbacks;
      var j, w := 0, 0;
      while j < |tilePatchCallbacks|
        invariant w <= j <= |tilePatchCallbacks| == |orig|
        invariant Compact(tilePatchCallbacks, cb, j, w) == StdRemove(orig, cb)
        invariant w == |Filter(orig[..j], cb)|
        invariant tilePatchCallbacks[j..] == orig[j..]
        invariant Model() == old(Model()).(patchCallbacks := tilePatchCallbacks)
      {
        FilterPrefixStep(orig, j, cb);
        if tilePatchCallbacks[j] != cb {
          tilePatchCallbacks := tilePatchCallbacks[w := tilePatchCallbacks[j]];
          w := w + 1;
        }
        j := j + 1;
      }
      assert orig[..j] == orig;
      FilterMultiset(orig, cb);
      newEnd := w;
    }

    /** As the node does it: `std::remove` with its result discarded, so nothing is erased. */
    method RemoveTilePatchCallback(cb: CallbackId)
      modifies this
      ensures Model() == Step(old(Model()), Call.RemoveTilePatchCallback(cb))
    {
      var _ := RemoveInPlace(cb);
    }

    /** The erase-remove idiom the removal evidently means: every registration of `cb` goes. */
    method RemoveTilePatchCallbackErased(cb: CallbackId)
      modifies this
      ensures Model() == old(Model()).(patchCallbacks := EraseRemove(old(tilePatchCallbacks), cb))
      ensures tilePatchCallbacks == Filter(old(tilePatchCallbacks), cb)
      ensures cb !in tilePatchCallbacks
    {
      var newEnd := RemoveInPlace(cb);
      tilePatchCallbacks := tilePatchCallbacks[..newEnd];
    }

    /**
     The destructor: when a map was bound and is still alive (`liveMap` holds its
     layers at this moment), unsubscribe the controller from each of its image
     layers.
     */
    method Destroy(liveMap: Option<seq<Layer>>)
      modifies this
      ensures Model() == Step(old(Model()), Call.Destroy(liveMap))
    {
      if mapBound && liveMap.Some? {
        var left := Unsubscribe(subs, liveMap.value);
        subs := left;
      }
    }
  }

  /**
   The loop of `setMap` over the map's layers: the controller is added to every
   image layer, in layer order.
   */
  method Subscribe(subs: multiset<LayerId>, layers: seq<Layer>) returns (r: multiset<LayerId>)
    ensures r == subs + ImageSubs(layers)
  {
    r := subs;
    var i := 0;
    while i < |layers|
      invariant i <= |layers|
      invariant r == subs + ImageSubs(layers[..i])
    {
      ImageSubsPrefixStep(layers, i);
      if layers[i].kind == Image {
        r := r + multiset{layers[i].id};
      }
      i := i + 1;
    }
    assert layers[..i] == layers;
  }

  /** The loop of the destructor: the controller is removed from every image layer of the live map. */
  method Unsubscribe(subs: multiset<LayerId>, layers: seq<Layer>) returns (r: multiset<LayerId>)
    ensures r == subs - ImageSubs(layers)
  {
    r := subs;
    var i := 0;
    while i < |layers|
      invariant i <= |layers|
      invariant r == subs - ImageSubs(layers[..i])
    {
      ImageSubsPrefixStep(layers, i);
      if layers[i].kind == Image {
        r := r - multiset{layers[i].id};
      }
      i := i + 1;
    }
    assert layers[..i] == layers;
  }
}
