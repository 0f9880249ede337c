# osgEarth terrain engine node: bookkeeping model

This project models the bookkeeping of osgEarth's `TerrainEngineNode`
(`src/osgEarth/TerrainEngineNode.cpp`). That is the state the node keeps for itself on
top of the OpenSceneGraph node it derives from:

- the ordered list of installed terrain effects, and their install/uninstall hooks;
- the redraw-coalescing counter `_dirtyCount`, which the event traversal resets;
- the one-way requirement flags the tile-model factory reads;
- the image-layer controller's subscriptions to the map's image layers;
- the create-tile-model callback registry, fired when the factory builds a model;
- the tile-patch callback list.

Outside effects are recorded, in order, in a ghost event log. They are:
- the effect's install and uninstall hooks;
- `dirtyState`;
- the redraw request sent to the views;
- the elevation notice to the terrain facade;
- each create-tile-model callback invocation.

The project has four modules:

- `Wrappers` (`wrappers.dfy`): `Option`, standing for a pointer that may be null.
- `Sequences` (`sequences.dfy`): the vector operations the node uses.
  - `std::find`, as the function `IndexOf` and the loop `Find`.
  - The single `erase` after it (`RemoveFirst`).
  - The in-place compaction of `std::remove` (`Compact`, `StdRemove`).
  - The erase-remove idiom (`EraseRemove`).
- `EngineModel` (`engine_model.dfy`): the node as a pure state machine.
  - A `State` holds every bookkeeping field and the log.
  - A `Call` is one call into the node's API. The destructor is the call `Destroy`, and one host visit is the call `Traverse`.
  - `Step` and `Run` give the state after one call and after a sequence of calls.
  - The lemmas state what each call does and what holds over any sequence of calls.
- `TerrainEngine` (`engine_node.dfy`): the class `TerrainEngineNode`.
  - Its fields are the node's fields, and its methods update them in place, as the C++ does.
  - This includes the loops of `setMap`, `createTileModel` and `removeCreateTileModelCallback`, the `std::remove` loop, and the destructor's loop.
  - Each method that stands for a `Call` is proved to leave the object in exactly the state `EngineModel.Step` gives for that call. Two methods have no `Call`: `RemoveInPlace`, the `std::remove` loop, which is proved to leave `StdRemove` of the old list, and `RemoveTilePatchCallbackErased`, the corrected removal, which is proved to leave `EraseRemove` of it.
  - Because a sequence of those method calls takes the object through the states `Step` gives, one call after another, the `EngineModel` lemmas about `Run` describe such a sequence. That step is reasoning from the method contracts; no lemma in the project states it about the methods themselves.

Inputs the node gets from code outside this file become parameters:
- the map (a sequence of layers, or `None` for a null map, or for a map already gone when the destructor runs);
- a map-model change notice;
- the tile-model factory (a function from the requirement flags to an optional model);
- the kind of node visitor.

Two behaviours of the effect list are worth spelling out:

- `removeEffect(e)` on an effect that is not installed still calls `onUninstall` and `dirtyState` (lines 91-97). `EngineModel.RemoveEffectErasesFirst` states it.
- Adding then removing an effect restores the list only when the effect was not installed (`EngineModel.AddThenRemoveEffect`). When it was, the older copy is erased and the effect ends up at the back (`EngineModel.ReAddedEffectMovesToBack`).

## Model

| member | source | states |
|---|---|---|
| Sequences.IndexOf | src/osgEarth/TerrainEngineNode.cpp:94 | the position `std::find` stops at: a match, with no match before it, or the end exactly when there is no match |
| Sequences.Find | src/osgEarth/TerrainEngineNode.cpp:94 | the front-to-back search loop returns the position `IndexOf` specifies |
| Sequences.RemoveFirst | src/osgEarth/TerrainEngineNode.cpp:94-96 | erasing after a search leaves a list without the element unchanged, and otherwise shortens the list by exactly one |
| Sequences.RemoveFirstMultiset | src/osgEarth/TerrainEngineNode.cpp:94-96 | the erase takes out exactly one copy of the element and nothing else |
| Sequences.RemoveFirstErasesFirstMatch | src/osgEarth/TerrainEngineNode.cpp:94-96 | the erased position holds the element, no earlier position does, and the rest keep their order |
| Sequences.RemoveFirstAfterAppend | src/osgEarth/TerrainEngineNode.cpp:81-96 | erasing an element just appended to a list that lacked it gives the list back |
| Sequences.StdRemove | src/osgEarth/TerrainEngineNode.cpp:436 | `std::remove` never changes the vector's length |
| Sequences.StdRemoveSpec | src/osgEarth/TerrainEngineNode.cpp:436 | after `std::remove`, the first n-k entries are the other elements in their original order (k = copies removed); the last k entries are untouched |
| Sequences.EraseRemove | src/osgEarth/TerrainEngineNode.cpp:436 | the erase-remove idiom leaves exactly the other elements, in order, and no copy of the removed one |
| Sequences.StdRemoveKeepsTrailingMatch | src/osgEarth/TerrainEngineNode.cpp:436 | `std::remove` alone on `[a, x]` leaves `[a, x]`: the removed element is still present |
| Sequences.Compact | src/osgEarth/TerrainEngineNode.cpp:436 | the rest of the `std::remove` scan, from read position `j` and write position `w` to the end, keeps the vector's length and never rewrites a position before `w` |
| Sequences.StdRemoveDuplicatesSurvivor | src/osgEarth/TerrainEngineNode.cpp:436 | `std::remove` alone on `[x, a]` leaves `[a, a]`: `x` is overwritten and `a` occurs twice |
| EngineModel.Step | src/osgEarth/TerrainEngineNode.cpp:77-437 | the state after each call (effects 77-99, destructor 136-152, flags and redraw 155-192, `setMap` 195-251, map changes and tile-model callbacks 289-361, traversal 403-406, tile-patch callbacks 428-437); no call lowers a requirement flag or removes anything from the event log |
| EngineModel.Redraw | src/osgEarth/TerrainEngineNode.cpp:178-186 | `requestRedraw` changes only the counter, which grows, and the log, which gains a redraw signal exactly when the counter stood at zero |
| EngineModel.ImageSubs | src/osgEarth/TerrainEngineNode.cpp:241-248 | the subscriptions the controller gets from a layer list: at most one per layer |
| EngineModel.ImageSubsMembers | src/osgEarth/TerrainEngineNode.cpp:241-248 | a layer id holds a subscription exactly when some image layer of the list has it |
| EngineModel.SubsAfter | src/osgEarth/TerrainEngineNode.cpp:291-300 | an image-layer add gives that layer one more subscription, an image-layer remove one fewer (none if it had none); every other layer, and every change without an image layer, keeps its count |
| EngineModel.ElevationNotice | src/osgEarth/TerrainEngineNode.cpp:302-305 | the change yields one elevation notice exactly when it carries an elevation layer, and none otherwise |
| EngineModel.FireLog | src/osgEarth/TerrainEngineNode.cpp:332-337 | firing a registry logs one event per callback, each callback exactly once, in registry order |
| EngineModel.NullEffectIgnored | src/osgEarth/TerrainEngineNode.cpp:77-99 | `addEffect(null)` and `removeEffect(null)` change nothing and log nothing |
| EngineModel.AddEffectAppends | src/osgEarth/TerrainEngineNode.cpp:77-85 | `addEffect(e)` keeps earlier effects in place, puts `e` last, logs install then `dirtyState`, and changes nothing else |
| EngineModel.RemoveEffectErasesFirst | src/osgEarth/TerrainEngineNode.cpp:89-99 | `removeEffect(e)` changes only the effect list and the log; it always logs uninstall then `dirtyState`; it erases only the first occurrence, keeps the others in order, and leaves a list without `e` unchanged |
| EngineModel.AddThenRemoveEffect | src/osgEarth/TerrainEngineNode.cpp:77-99 | adding an effect that is not installed and removing it again restores every field but the log, which gains install, dirty, uninstall, dirty |
| EngineModel.ReAddedEffectMovesToBack | src/osgEarth/TerrainEngineNode.cpp:77-99 | adding and removing an effect that is already installed erases its first copy and leaves it at the back: the list becomes `RemoveFirst` of the old list plus the effect |
| EngineModel.RedrawBurst | src/osgEarth/TerrainEngineNode.cpp:178-186 | n redraw requests add n to the counter and send one outward request if the counter stood at zero, none otherwise |
| EngineModel.TwoCyclesTwoSignals | src/osgEarth/TerrainEngineNode.cpp:403-406 | two non-empty bursts of requests separated by an event traversal send exactly two outward requests |
| EngineModel.RedrawSignals | src/osgEarth/TerrainEngineNode.cpp:180-185 | a counted request spends the one outward request its cycle allows, if still unspent |
| EngineModel.HookCallSignals | src/osgEarth/TerrainEngineNode.cpp:77-99 | `addEffect`/`removeEffect` make no `requestRedraw` call of their own and do not touch the counter themselves |
| EngineModel.MapChangeSignals | src/osgEarth/TerrainEngineNode.cpp:289-309 | a map-change notice sends an outward request only when none is pending for the cycle |
| EngineModel.TileModelSignals | src/osgEarth/TerrainEngineNode.cpp:327-338 | building a tile model sends no redraw request and leaves the counter as it was |
| EngineModel.StepSignals | src/osgEarth/TerrainEngineNode.cpp:178-186 | no call except the event traversal makes room for another outward request |
| EngineModel.AtMostOneSignalPerCycle | src/osgEarth/TerrainEngineNode.cpp:178-186 | over any sequence of calls, at most one outward request goes out per counter reset, plus one if the counter started at zero |
| EngineModel.RequirementSetters | src/osgEarth/TerrainEngineNode.cpp:155-192 | each setter raises only its own flag and then acts as `dirtyTerrain`, which acts as `requestRedraw`; a raised flag stays as it was |
| EngineModel.FlagsStayRaised | src/osgEarth/TerrainEngineNode.cpp:122-174 | no sequence of calls lowers a requirement flag |
| EngineModel.SetMapSubscribesImageLayers | src/osgEarth/TerrainEngineNode.cpp:195-251 | `setMap(null)` changes nothing; otherwise the map is bound, each image layer gains one subscription, the stage becomes post-init-complete, and nothing else changes |
| EngineModel.ImageSubsRemoveFirst | src/osgEarth/TerrainEngineNode.cpp:296-300 | removing a layer the map holds takes away exactly that layer's own subscription |
| EngineModel.ChangeKeepsSubscriptions | src/osgEarth/TerrainEngineNode.cpp:289-300 | one add, remove or other change notice keeps "one subscription per image layer of the map" |
| EngineModel.SubscriptionsFollowMap | src/osgEarth/TerrainEngineNode.cpp:289-309 | after any history of change notices, the subscriptions are exactly one per image layer of the resulting map |
| EngineModel.NoticesKeepBinding | src/osgEarth/TerrainEngineNode.cpp:289-309 | change notices never unbind the map |
| EngineModel.DestroyInSync | src/osgEarth/TerrainEngineNode.cpp:141-151 | destroying a bound node whose subscriptions match the live map leaves none |
| EngineModel.LifecycleLeavesNoSubscriptions | src/osgEarth/TerrainEngineNode.cpp:136-152 | set up on a map, told of each change, then destroyed while the map lives: no subscription is left |
| EngineModel.CreateTileModelFires | src/osgEarth/TerrainEngineNode.cpp:311-340 | with no model nothing fires and nothing changes; with a model, each registered callback fires once, in order, and nothing else changes |
| EngineModel.AddThenRemoveCreateCallback | src/osgEarth/TerrainEngineNode.cpp:343-361 | registering a callback that is not registered and then removing it restores the whole state |
| EngineModel.RemoveCreateCallbackErasesOne | src/osgEarth/TerrainEngineNode.cpp:350-361 | removal takes out exactly the first registration of the callback and keeps the others in order; an unregistered callback leaves the state unchanged |
| EngineModel.RemoveTilePatchKeepsLength | src/osgEarth/TerrainEngineNode.cpp:434-437 | `removeTilePatchCallback` never changes the length; the first n-k entries are the others in order and the last k are as before |
| EngineModel.RemovedTilePatchCallbackStaysRegistered | src/osgEarth/TerrainEngineNode.cpp:434-437 | with `[a, cb]` registered, removing `cb` leaves `[a, cb]` |
| TerrainEngine.TerrainEngineNode.constructor | src/osgEarth/TerrainEngineNode.cpp:118-134 | a new node holds the initial state: no effects, counter 0, flags down, no map, empty registries, stage `INIT_NONE` |
| TerrainEngine.TerrainEngineNode.AddEffect | src/osgEarth/TerrainEngineNode.cpp:77-85 | the new state is `Step` of the `addEffect` call |
| TerrainEngine.TerrainEngineNode.RemoveEffect | src/osgEarth/TerrainEngineNode.cpp:89-99 | the search-and-erase gives `Step` of the `removeEffect` call |
| TerrainEngine.TerrainEngineNode.RequireNormalTextures | src/osgEarth/TerrainEngineNode.cpp:155-160 | the new state is `Step` of the call |
| TerrainEngine.TerrainEngineNode.RequireElevationTextures | src/osgEarth/TerrainEngineNode.cpp:162-167 | the new state is `Step` of the call |
| TerrainEngine.TerrainEngineNode.RequireParentTextures | src/osgEarth/TerrainEngineNode.cpp:169-174 | the new state is `Step` of the call |
| TerrainEngine.TerrainEngineNode.RequestRedraw | src/osgEarth/TerrainEngineNode.cpp:177-186 | the post-increment and its test give `Step` of `requestRedraw` |
| TerrainEngine.TerrainEngineNode.DirtyTerrain | src/osgEarth/TerrainEngineNode.cpp:188-192 | the new state is `Step` of the call |
| TerrainEngine.TerrainEngineNode.SetMap | src/osgEarth/TerrainEngineNode.cpp:195-251 | the null check, the subscription loop and the stage update give `Step` of `setMap` |
| TerrainEngine.TerrainEngineNode.OnMapModelChanged | src/osgEarth/TerrainEngineNode.cpp:289-309 | the three independent branches and the closing `requestRedraw` give `Step` of the notice |
| TerrainEngine.TerrainEngineNode.CreateTileModel | src/osgEarth/TerrainEngineNode.cpp:311-340 | returns the factory's result under the current flags; the firing loop gives `Step` of the call |
| TerrainEngine.TerrainEngineNode.AddCreateTileModelCallback | src/osgEarth/TerrainEngineNode.cpp:343-347 | the new state is `Step` of the call |
| TerrainEngine.TerrainEngineNode.RemoveCreateTileModelCallback | src/osgEarth/TerrainEngineNode.cpp:350-361 | the loop with its erase and `break` gives `Step` of the call |
| TerrainEngine.TerrainEngineNode.Traverse | src/osgEarth/TerrainEngineNode.cpp:403-411 | an event visit resets the counter as `Step` says; other visits change no bookkeeping |
| TerrainEngine.TerrainEngineNode.AddTilePatchCallback | src/osgEarth/TerrainEngineNode.cpp:428-431 | the new state is `Step` of the call |
| TerrainEngine.TerrainEngineNode.RemoveInPlace | src/osgEarth/TerrainEngineNode.cpp:436 | the in-place copy loop of `std::remove` leaves `StdRemove` of the old list and returns n-k as the new end |
| TerrainEngine.TerrainEngineNode.RemoveTilePatchCallback | src/osgEarth/TerrainEngineNode.cpp:434-437 | `std::remove` with its result discarded gives `Step` of the call; the list keeps its length |
| TerrainEngine.TerrainEngineNode.RemoveTilePatchCallbackErased | src/osgEarth/TerrainEngineNode.cpp:436 | with the erase added, the list is exactly the other callbacks, in order, with no copy of `cb` |
| TerrainEngine.TerrainEngineNode.Destroy | src/osgEarth/TerrainEngineNode.cpp:136-152 | unsubscribing from the live map's image layers gives `Step` of the destructor |
| TerrainEngine.Subscribe | src/osgEarth/TerrainEngineNode.cpp:241-248 | the `setMap` loop adds one subscription per image layer: the result is the old subscriptions plus `ImageSubs` of the layers |
| TerrainEngine.Unsubscribe | src/osgEarth/TerrainEngineNode.cpp:147-150 | the destructor's loop removes one subscription per image layer |

## Left out

- OpenSceneGraph mechanics are left out, because they are scene-graph glue with no bookkeeping:
  - `computeBound` (floating-point ellipsoid radii);
  - the coordinate-system-node setup and `setEllipsoidModel` in `setMap` and `onMapInfoEstablished`;
  - the render-bin state set;
  - `CoordinateSystemNode::traverse`;
  - the `ViewVisitor<RequestRedraw>` traversal, which is recorded only as the `RedrawSignal` event.
- `setMap` also creates the `Terrain` facade, the texture-unit tracker, the map callback proxy and the tile-model factory. Those objects' code is not part of this model. Only the null check, the subscription loop and the stage are modelled.
- The bodies of the `Terrain` facade, `TextureCompositor`, `TerrainTileModelFactory`, `dirtyState` and the effect hooks are not part of this model. The hooks and `dirtyState` appear as logged events. The factory is a function parameter.
- The update traversal's `_terrainInterface->update()` is left out, because it manages the `Terrain` facade, whose code is not part of this model.
- Locks (the read/write locks around the create-tile-model registry and the tile-node mutex) are left out. The model is sequential.
- The callback proxy's weak-reference forwarding (lines 41-60) and `_map.valid()` in the destructor are object-lifetime machinery. The liveness of the map is an input (`Destroy(None)` means the map is gone).
- `TerrainEngineNodeFactory::create` is left out: it loads a plugin by file name, which is I/O.
- `setVerticalScale` is left out: it sets float state and calls a virtual hook.
- `getResources`, `getComputeRangeCallback` and `setComputeRangeCallback` are left out: they are plain accessors.
- `notifyOfTerrainTileNodeCreation` and its tile-node callback list are left out: no method of this file adds to that list.
- The empty `TerrainDecorator` hooks are left out: they do nothing.
- `_requireElevationBorder`, `_requireFullDataAtFirstLOD` and `_redrawRequired` are set only in the constructor within this file, so they are not fields of the model.
- Layer subscriptions are modelled as a multiset, one entry per `addCallback` not yet undone by a `removeCallback`. `Layer::addCallback` and `removeCallback` are not part of this model. A removal with no matching entry is taken to do nothing.
- AddEffectAppends, AddThenRemoveEffect, HookCallSignals: the effect hooks `onInstall`/`onUninstall` receive the node (lines 82 and 93), and `dirtyState` (lines 83 and 97) has its body outside this file. A hook or `dirtyState` that calls back into the node, for example to raise a requirement flag or request a redraw, is not modelled. So "nothing else changes", "the state is restored" and "no redraw request" hold for hooks that do not call back.
- Each `setMap` call creates a new image-layer controller (line 238). The destructor (line 149) and `onMapModelChanged` (lines 294 and 299) add or remove only the current controller. The subscriptions are one multiset of layer ids, so the model cannot tell controllers apart. It is exact only when one map is bound for the node's lifetime. After `setMap([L])`, `setMap([])` and a remove notice for `L`, the model has no subscription on `L`, but the first controller is still registered there.
- A null callback pointer passed to the registries, and callbacks that call back into the node while it fires them, are not modelled.
- `_dirtyCount` is an unbounded natural number. The width of the C++ field is not visible in this file, and a wrap-around would need 2^32 requests within one frame.
- `RemoveTilePatchKeepsLength` and `StdRemoveSpec` state that the trailing k entries keep their old values. That assumes `std::remove` copies elements. If the callback pointers were moved instead, those entries would be unspecified.
- `MapAfter` treats a move as leaving the map's layer list unchanged. The list is tracked only for its image layers' subscriptions, and those do not depend on order.

## Findings

| source | as written | input that shows it | evidently intended | confidence | as-written member | corrected member |
|---|---|---|---|---|---|---|
| src/osgEarth/TerrainEngineNode.cpp:434-437 | `removeTilePatchCallback` calls `std::remove` and discards the iterator it returns, so nothing is erased from the vector | callbacks `[a, cb]` with `a != cb`; after `removeTilePatchCallback(cb)` the list is still `[a, cb]`, and `cb` stays registered | the erase-remove idiom: erase from the returned iterator to the end, so every registration of `cb` is gone | high, not executed | EngineModel.RemovedTilePatchCallbackStaysRegistered | TerrainEngine.TerrainEngineNode.RemoveTilePatchCallbackErased |

When `cb` is not last the damage is worse: `Sequences.StdRemoveDuplicatesSurvivor` shows that `[cb, a]` becomes `[a, a]`, so `cb` is gone but `a` is now registered twice.

`EngineModel.Step` and `TerrainEngineNode.RemoveTilePatchCallback` keep the behaviour as written, so that the model stays faithful to the code. `RemoveTilePatchCallbackErased` is the corrected operation. It is proved to leave exactly `EraseRemove` (that is, `Filter`) of the old list.
