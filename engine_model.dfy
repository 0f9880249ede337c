/**
 The bookkeeping of a terrain engine node as a pure state machine: what each
 call of the node's API does to its effect list, redraw counter, requirement
 flags, image-layer controller subscriptions and callback registries, and
 which outside effects it causes. Outside effects (the install and uninstall
 hooks of effects, `dirtyState`, the redraw request sent to the views, the
 elevation notice to the terrain facade, the create-tile-model callbacks)
 are recorded, in order, in a log of events.
 */
module EngineModel {
  import opened Wrappers
  import opened Sequences

  type EffectId = nat
  type LayerId = nat
  type CallbackId = nat
  /** A tile model built by the tile-model factory; only its identity matters here. */
  type TileModel = nat

  datatype LayerKind = Image | Elevation | Other
  datatype Layer = Layer(id: LayerId, kind: LayerKind)

  datatype ChangeAction = AddLayer | RemoveLayer | MoveLayer | OtherChange

  /** A map-model change notice: what happened and the layer it happened to, if any. */
  datatype MapModelChange = MapModelChange(action: ChangeAction, layer: Option<Layer>)
  {
    /** The changed layer when it is an image layer. */
    function ImageLayer(): Option<Layer> {
      if layer.Some? && layer.value.kind == Image then layer else None
    }

    /** The changed layer when it is an elevation layer. */
    function ElevationLayer(): Option<Layer> {
      if layer.Some? && layer.value.kind == Elevation then layer else None
    }
  }

  datatype Event =
    | Install(effect: EffectId)
    | Uninstall(effect: EffectId)
    | DirtyState
    | RedrawSignal
    | ElevationChanged
    | Fired(callback: CallbackId)

  datatype InitStage = InitNone | InitPostInitComplete

  datatype VisitorKind = EventVisitor | UpdateVisitor | OtherVisitor

  /** The requirement flags the tile-model factory may consult. */
  datatype Requirements = Requirements(elevationTextures: bool, normalTextures: bool, parentTextures: bool)

  datatype State = State(
    effects: seq<EffectId>,
    dirtyCount: nat,
    req: Requirements,
    mapBound: bool,
    subs: multiset<LayerId>,
    createCallbacks: seq<CallbackId>,
    patchCallbacks: seq<CallbackId>,
    stage: InitStage,
    log: seq<Event>)

  /** One call into the node. `Destroy` is the destructor; a `Traverse` is one visit by the host. */
  datatype Call =
    | AddEffect(effect: Option<EffectId>)
    | RemoveEffect(effect: Option<EffectId>)
    | RequestRedraw
    | DirtyTerrain
    | RequireNormalTextures
    | RequireElevationTextures
    | RequireParentTextures
    | SetMap(newMap: Option<seq<Layer>>)
    | OnMapModelChanged(change: MapModelChange)
    | CreateTileModel(outcome: Option<TileModel>)
    | AddCreateTileModelCallback(cb: CallbackId)
    | RemoveCreateTileModelCallback(cb: CallbackId)
    | Traverse(visitor: VisitorKind)
    | AddTilePatchCallback(cb: CallbackId)
    | RemoveTilePatchCallback(cb: CallbackId)
    | Destroy(liveMap: Option<seq<Layer>>)

  /** The state the node's constructor establishes. */
  function Initial(): (s: State) {
    State([], 0, Requirements(false, false, false), false, multiset{}, [], [], InitNone, [])
  }

  /** One controller subscription per image layer of `layers`. */
  function ImageSubs(layers: seq<Layer>): (r: multiset<LayerId>)
    ensures |r| <= |layers|
  {
    if layers == [] then multiset{}
    else
      var last := layers[|layers| - 1];
      ImageSubs(layers[..|layers| - 1]) + (if last.kind == Image then multiset{last.id} else multiset{})
  }

  /** The events of firing `callbacks`: each one exactly once, in registry order. */
  function FireLog(callbacks: seq<CallbackId>): (events: seq<Event>)
    ensures |events| == |callbacks|
    ensures forall i :: 0 <= i < |callbacks| ==> events[i] == Fired(callbacks[i])
  {
    if callbacks == [] then []
    else FireLog(callbacks[..|callbacks| - 1]) + [Fired(callbacks[|callbacks| - 1])]
  }

  /** The outward redraw request `requestRedraw` sends when the counter stood at `count`. */
  function RedrawLog(count: nat): (events: seq<Event>) {
    if count == 0 then [RedrawSignal] else []
  }

  /** `requestRedraw`: count the request; only the first one since the last reset goes out. */
  function Redraw(s: State): (r: State)
    ensures r == s.(dirtyCount := r.dirtyCount, log := r.log)
    ensures r.dirtyCount > s.dirtyCount
    ensures s.log <= r.log
    ensures RedrawSignal in r.log[|s.log|..] <==> s.dirtyCount == 0
  {
    s.(dirtyCount := s.dirtyCount + 1, log := s.log + RedrawLog(s.dirtyCount))
  }

  /** What `onMapModelChanged` does to the controller subscriptions. */
  function SubsAfter(subs: multiset<LayerId>, change: MapModelChange): (r: multiset<LayerId>)
    ensures change.ImageLayer().None? ==> r == subs
    ensures change.ImageLayer().Some? ==> forall id :: id != change.ImageLayer().value.id ==> r[id] == subs[id]
    ensures change.ImageLayer().Some? && change.action == AddLayer ==>
              r[change.ImageLayer().value.id] == subs[change.ImageLayer().value.id] + 1
    ensures change.ImageLayer().Some? && change.action == RemoveLayer ==>
              r[change.ImageLayer().value.id] == if subs[change.ImageLayer().value.id] == 0 then 0
                                                 else subs[change.ImageLayer().value.id] - 1
  {
    match change.ImageLayer()
    case None => subs
    case Some(l) =>
      if change.action == AddLayer then subs + multiset{l.id}
      else if change.action == RemoveLayer then subs - multiset{l.id}
      else subs
  }

  /** The elevation notice `onMapModelChanged` hands to the terrain facade, if any. */
  function ElevationNotice(change: MapModelChange): (r: seq<Event>)
    ensures r == [] || r == [ElevationChanged]
    ensures r != [] <==> change.layer.Some? && change.layer.value.kind == Elevation
  {
    if change.ElevationLayer().Some? then [ElevationChanged] else []
  }

  /**
   The state after one call: the whole effect of the call on the bookkeeping,
   and the outside effects it appends to the log. No call lowers a requirement
   flag or takes anything back out of the log.
   */
  function Step(s: State, c: Call): (r: State)
    ensures Raised(s.req, r.req)
    ensures s.log <= r.log
  {
    match c
    case AddEffect(e) =>
      if e.None? then s
      else s.(effects := s.effects + [e.value], log := s.log + [Install(e.value), DirtyState])
    case RemoveEffect(e) =>
      if e.None? then s
      else s.(effects := RemoveFirst(s.effects, e.value), log := s.log + [Uninstall(e.value), DirtyState])
    case RequestRedraw => Redraw(s)
    case DirtyTerrain => Redraw(s)
    case RequireNormalTextures => Redraw(s.(req := s.req.(normalTextures := true)))
    case RequireElevationTextures => Redraw(s.(req := s.req.(elevationTextures := true)))
    case RequireParentTextures => Redraw(s.(req := s.req.(parentTextures := true)))
    case SetMap(m) =>
      if m.None? then s
      else s.(mapBound := true, subs := s.subs + ImageSubs(m.value), stage := InitPostInitComplete)
    case OnMapModelChanged(ch) =>
      Redraw(s.(subs := SubsAfter(s.subs, ch), log := s.log + ElevationNotice(ch)))
    case CreateTileModel(outcome) =>
      if outcome.None? then s else s.(log := s.log + FireLog(s.createCallbacks))
    case AddCreateTileModelCallback(cb) => s.(createCallbacks := s.createCallbacks + [cb])
    case RemoveCreateTileModelCallback(cb) => s.(createCallbacks := RemoveFirst(s.createCallbacks, cb))
    case Traverse(v) => if v == EventVisitor then s.(dirtyCount := 0) else s
    case AddTilePatchCallback(cb) => s.(patchCallbacks := s.patchCallbacks + [cb])
    case RemoveTilePatchCallback(cb) => s.(patchCallbacks := StdRemove(s.patchCallbacks, cb))
    case Destroy(live) =>
      if s.mapBound && live.Some? then s.(subs := s.subs - ImageSubs(live.value)) else s
  }

  function Run(s: State, calls: seq<Call>): (t: State)
    decreases |calls|
  {
    if calls == [] then s else Run(Step(s, calls[0]), calls[1..])
  }

  lemma {:induction false} RunAppend(s: State, a: seq<Call>, b: seq<Call>)
    ensures Run(s, a + b) == Run(Run(s, a), b)
    decreases |a|
  {
    if a == [] {
      assert a + b == b;
    } else {
      assert (a + b)[0] == a[0];
      assert (a + b)[1..] == a[1..] + b;
      RunAppend(Step(s, a[0]), a[1..], b);
    }
  }

  lemma RunTwo(s: State, a: Call, b: Call)
    ensures Run(s, [a, b]) == Step(Step(s, a), b)
  {
    assert [a, b][0] == a && [a, b][1..] == [b];
    assert Run(s, [a, b]) == Run(Step(s, a), [b]);
    assert [b][0] == b && [b][1..] == [];
    assert Run(Step(s, a), [b]) == Run(Step(Step(s, a), b), []);
  }

  // ---------------------------------------------------------------- effects

  /** A null effect is ignored by both `addEffect` and `removeEffect`. */
  lemma NullEffectIgnored(s: State)
    ensures Step(s, AddEffect(None)) == s
    ensures Step(s, RemoveEffect(None)) == s
  {
  }

  /**
   `addEffect(e)` leaves the earlier effects where they were, puts `e` last, and
   calls the install hook, then marks the state dirty; nothing else changes.
   */
  lemma AddEffectAppends(s: State, e: EffectId)
    ensures var t := Step(s, AddEffect(Some(e)));
      |t.effects| == |s.effects| + 1 && t.effects[..|s.effects|] == s.effects &&
      t.effects[|s.effects|] == e &&
      t == s.(effects := t.effects, log := s.log + [Install(e), DirtyState])
  {
    var t := Step(s, AddEffect(Some(e)));
    assert t.effects[..|s.effects|] == s.effects;
  }

  /**
   `removeEffect(e)` always calls the uninstall hook and then marks the state
   dirty, present or not; it erases only the first occurrence, and a list
   without `e` stays as it was.
   */
  lemma RemoveEffectErasesFirst(s: State, e: EffectId)
    ensures var t := Step(s, RemoveEffect(Some(e)));
      t == s.(effects := t.effects, log := t.log) &&
      t.log == s.log + [Uninstall(e), DirtyState] &&
      multiset(t.effects) == multiset(s.effects) - multiset{e} &&
      (e !in s.effects ==> t == s.(log := t.log)) &&
      (e in s.effects ==> exists i :: 0 <= i < |s.effects| && s.effects[i] == e && e !in s.effects[..i] &&
                                      t.effects == s.effects[..i] + s.effects[i+1..])
  {
    var t := Step(s, RemoveEffect(Some(e)));
    assert t == s.(effects := RemoveFirst(s.effects, e), log := s.log + [Uninstall(e), DirtyState]);
    RemoveFirstMultiset(s.effects, e);
    if e in s.effects {
      RemoveFirstErasesFirstMatch(s.effects, e);
    } else {
      assert RemoveFirst(s.effects, e) == s.effects;
    }
  }

  /**
   Adding an effect that is not installed and removing it again restores the
   effect list, with one install and then one uninstall hook call in between.
   */
  lemma AddThenRemoveEffect(s: State, e: EffectId)
    requires e !in s.effects
    ensures Run(s, [AddEffect(Some(e)), RemoveEffect(Some(e))]) ==
            s.(log := s.log + [Install(e), DirtyState, Uninstall(e), DirtyState])
  {
    RunTwo(s, AddEffect(Some(e)), RemoveEffect(Some(e)));
    var t := s.(effects := s.effects + [e], log := s.log + [Install(e), DirtyState]);
    assert Step(s, AddEffect(Some(e))) == t;
    RemoveFirstAfterAppend(s.effects, e);
    assert t.log + [Uninstall(e), DirtyState] == s.log + [Install(e), DirtyState, Uninstall(e), DirtyState];
    assert Step(t, RemoveEffect(Some(e))) == t.(effects := s.effects, log := t.log + [Uninstall(e), DirtyState]);
  }

  /**
   When `e` is already installed, adding and removing it again erases its older
   copy instead: the list loses `e` at its first position and gains it at the back.
   */
  lemma ReAddedEffectMovesToBack(s: State, e: EffectId)
    requires e in s.effects
    ensures Run(s, [AddEffect(Some(e)), RemoveEffect(Some(e))]).effects == RemoveFirst(s.effects, e) + [e]
  {
    RunTwo(s, AddEffect(Some(e)), RemoveEffect(Some(e)));
    var l := s.effects + [e];
    var i := IndexOf(s.effects, e);
    assert IndexOf(l, e) == i by {
      assert l[..|s.effects|] == s.effects;
    }
    assert l[..i] == s.effects[..i];
    assert l[i+1..] == s.effects[i+1..] + [e];
  }

  // ------------------------------------------------- redraw and requirements

  function Requests(n: nat): (calls: seq<Call>) {
    if n == 0 then [] else [RequestRedraw] + Requests(n - 1)
  }

  /** The number of outward redraw requests in a log. */
  function Signals(log: seq<Event>): (n: nat) {
    if log == [] then 0
    else Signals(log[..|log| - 1]) + (if log[|log| - 1] == RedrawSignal then 1 else 0)
  }

  /**
   A burst of `n` redraw requests adds `n` to the counter and sends exactly one
   outward request when the counter stood at zero, none otherwise.
   */
  lemma {:induction false} RedrawBurst(s: State, n: nat)
    ensures Run(s, Requests(n)) ==
            s.(dirtyCount := s.dirtyCount + n,
               log := s.log + (if s.dirtyCount == 0 && n > 0 then [RedrawSignal] else []))
    decreases n
  {
    if n == 0 {
      assert s.log + [] == s.log;
    } else {
      var calls := Requests(n);
      assert calls[0] == RequestRedraw && calls[1..] == Requests(n - 1);
      RedrawBurst(Redraw(s), n - 1);
      assert Redraw(s).log + [] == Redraw(s).log;
    }
  }

  /**
   Two bursts separated by an event traversal send exactly two outward redraw
   requests, however long each burst is.
   */
  lemma TwoCyclesTwoSignals(s: State, n: nat, m: nat)
    requires s.dirtyCount == 0 && n >= 1 && m >= 1
    ensures Signals(Run(s, Requests(n) + [Traverse(EventVisitor)] + Requests(m)).log) == Signals(s.log) + 2
  {
    RunAppend(s, Requests(n) + [Traverse(EventVisitor)], Requests(m));
    RunAppend(s, Requests(n), [Traverse(EventVisitor)]);
    RedrawBurst(s, n);
    var t := Run(s, Requests(n));
    assert [Traverse(EventVisitor)][1..] == [];
    var u := Run(t, [Traverse(EventVisitor)]);
    assert u == t.(dirtyCount := 0);
    RedrawBurst(u, m);
  }

  /** 1 while no redraw request has been counted since the last reset. */
  function Fresh(s: State): (n: nat) {
    if s.dirtyCount == 0 then 1 else 0
  }

  /** The host's event traversal, the one call that resets the redraw counter. */
  predicate IsReset(c: Call) {
    c.Traverse? && c.visitor == EventVisitor
  }

  function Resets(calls: seq<Call>): (n: nat)
    decreases |calls|
  {
    if calls == [] then 0 else (if IsReset(calls[0]) then 1 else 0) + Resets(calls[1..])
  }

  lemma {:induction false} SignalsAppend(a: seq<Event>, b: seq<Event>)
    ensures Signals(a + b) == Signals(a) + Signals(b)
    decreases |b|
  {
    if b == [] {
      assert a + b == a;
    } else {
      assert (a + b)[..|a + b| - 1] == a + b[..|b| - 1];
      SignalsAppend(a, b[..|b| - 1]);
    }
  }

  /** Firing tile-model callbacks sends no redraw request. */
  lemma {:induction false} FireLogSendsNoSignal(callbacks: seq<CallbackId>)
    ensures Signals(FireLog(callbacks)) == 0
    decreases |callbacks|
  {
    if callbacks != [] {
      var f := FireLog(callbacks);
      assert f[..|f| - 1] == FireLog(callbacks[..|callbacks| - 1]);
      FireLogSendsNoSignal(callbacks[..|callbacks| - 1]);
    }
  }

  lemma SignalsOfHookCall(log: seq<Event>, hook: Event)
    requires hook != RedrawSignal
    ensures Signals(log + [hook, DirtyState]) == Signals(log)
  {
    SignalsAppend(log, [hook, DirtyState]);
    assert [hook][..0] == [];
    assert Signals([hook]) == 0;
    assert [hook, DirtyState][..1] == [hook];
    assert Signals([hook, DirtyState]) == 0;
  }

  /** A counted redraw request spends the one outward request the cycle allows, if it is still unspent. */
  lemma RedrawSignals(s: State)
    ensures Signals(Redraw(s).log) + Fresh(Redraw(s)) == Signals(s.log) + Fresh(s)
  {
    SignalsAppend(s.log, RedrawLog(s.dirtyCount));
    assert [RedrawSignal][..0] == [];
  }

  /** No call other than the event traversal can make room for a new outward request. */
  lemma StepSignals(s: State, c: Call)
    ensures Signals(Step(s, c).log) + Fresh(Step(s, c)) <=
            Signals(s.log) + Fresh(s) + (if IsReset(c) then 1 else 0)
  {
    match c
    case AddEffect(e) => HookCallSignals(s, c);
    case RemoveEffect(e) => HookCallSignals(s, c);
    case RequestRedraw => RedrawSignals(s);
    case DirtyTerrain => RedrawSignals(s);
    case RequireNormalTextures => RedrawSignals(s.(req := s.req.(normalTextures := true)));
    case RequireElevationTextures => RedrawSignals(s.(req := s.req.(elevationTextures := true)));
    case RequireParentTextures => RedrawSignals(s.(req := s.req.(parentTextures := true)));
    case OnMapModelChanged(ch) => MapChangeSignals(s, ch);
    case CreateTileModel(outcome) => TileModelSignals(s, outcome);
    case SetMap(_) =>
    case AddCreateTileModelCallback(_) =>
    case RemoveCreateTileModelCallback(_) =>
    case Traverse(_) =>
    case AddTilePatchCallback(_) =>
    case RemoveTilePatchCallback(_) =>
    case Destroy(_) =>
  }

  lemma HookCallSignals(s: State, c: Call)
    requires c.AddEffect? || c.RemoveEffect?
    ensures Signals(Step(s, c).log) == Signals(s.log) && Step(s, c).dirtyCount == s.dirtyCount
  {
    if c.AddEffect? && c.effect.Some? {
      SignalsOfHookCall(s.log, Install(c.effect.value));
    } else if c.RemoveEffect? && c.effect.Some? {
      SignalsOfHookCall(s.log, Uninstall(c.effect.value));
    }
  }

  lemma MapChangeSignals(s: State, ch: MapModelChange)
    ensures Signals(Step(s, OnMapModelChanged(ch)).log) + Fresh(Step(s, OnMapModelChanged(ch))) ==
            Signals(s.log) + Fresh(s)
  {
    var u := s.(subs := SubsAfter(s.subs, ch), log := s.log + ElevationNotice(ch));
    assert Step(s, OnMapModelChanged(ch)) == Redraw(u);
    SignalsAppend(s.log, ElevationNotice(ch));
    assert Signals(ElevationNotice(ch)) == 0 by { assert [ElevationChanged][..0] == []; }
    RedrawSignals(u);
  }

  lemma TileModelSignals(s: State, outcome: Option<TileModel>)
    ensures Signals(Step(s, CreateTileModel(outcome)).log) == Signals(s.log)
    ensures Step(s, CreateTileModel(outcome)).dirtyCount == s.dirtyCount
  {
    if outcome.Some? {
      SignalsAppend(s.log, FireLog(s.createCallbacks));
      FireLogSendsNoSignal(s.createCallbacks);
    }
  }

  /**
   Over any sequence of calls, at most one outward redraw request goes out per
   reset of the counter, plus one if the counter stood at zero to begin with.
   */
  lemma {:induction false} AtMostOneSignalPerCycle(s: State, calls: seq<Call>)
    ensures Signals(Run(s, calls).log) + Fresh(Run(s, calls)) <= Signals(s.log) + Fresh(s) + Resets(calls)
    decreases |calls|
  {
    if calls != [] {
      StepSignals(s, calls[0]);
      AtMostOneSignalPerCycle(Step(s, calls[0]), calls[1..]);
    }
  }

  /** Every flag raised in `a` is raised in `b`. */
  predicate Raised(a: Requirements, b: Requirements) {
    (a.elevationTextures ==> b.elevationTextures) &&
    (a.normalTextures ==> b.normalTextures) &&
    (a.parentTextures ==> b.parentTextures)
  }

  /**
   Each requirement setter raises its own flag only and then goes through
   `dirtyTerrain`, which is `requestRedraw`; setting a raised flag again
   changes no flag.
   */
  lemma RequirementSetters(s: State)
    ensures Step(s, RequireNormalTextures) == Step(s.(req := s.req.(normalTextures := true)), DirtyTerrain)
    ensures Step(s, RequireElevationTextures) == Step(s.(req := s.req.(elevationTextures := true)), DirtyTerrain)
    ensures Step(s, RequireParentTextures) == Step(s.(req := s.req.(parentTextures := true)), DirtyTerrain)
    ensures Step(s, DirtyTerrain) == Step(s, RequestRedraw)
    ensures s.req.normalTextures ==> Step(s, RequireNormalTextures).req == s.req
    ensures s.req.elevationTextures ==> Step(s, RequireElevationTextures).req == s.req
    ensures s.req.parentTextures ==> Step(s, RequireParentTextures).req == s.req
  {
  }

  /** No call lowers a requirement flag: once raised, a flag stays raised. */
  lemma {:induction false} FlagsStayRaised(s: State, calls: seq<Call>)
    ensures Raised(s.req, Run(s, calls).req)
    decreases |calls|
  {
    if calls != [] {
      assert Raised(s.req, Step(s, calls[0]).req);
      FlagsStayRaised(Step(s, calls[0]), calls[1..]);
    }
  }

  // ------------------------------------------------ layer-controller binding

  lemma {:induction false} ImageSubsAppend(a: seq<Layer>, b: seq<Layer>)
    ensures ImageSubs(a + b) == ImageSubs(a) + ImageSubs(b)
    decreases |b|
  {
    if b == [] {
      assert a + b == a;
    } else {
      assert (a + b)[..|a + b| - 1] == a + b[..|b| - 1];
      ImageSubsAppend(a, b[..|b| - 1]);
    }
  }

  function OwnSubs(l: Layer): (subs: multiset<LayerId>) {
    if l.kind == Image then multiset{l.id} else multiset{}
  }

  /** A layer holds a controller subscription exactly when some image layer of the list has its id. */
  lemma {:induction false} ImageSubsMembers(layers: seq<Layer>, id: LayerId)
    ensures id in ImageSubs(layers) <==>
            exists i :: 0 <= i < |layers| && layers[i].kind == Image && layers[i].id == id
    decreases |layers|
  {
    if layers != [] {
      var init := layers[..|layers| - 1];
      ImageSubsMembers(init, id);
      if id in ImageSubs(init) {
        var i :| 0 <= i < |init| && init[i].kind == Image && init[i].id == id;
        assert layers[i] == init[i];
      }
      if exists i :: 0 <= i < |layers| && layers[i].kind == Image && layers[i].id == id {
        var i :| 0 <= i < |layers| && layers[i].kind == Image && layers[i].id == id;
        if i < |init| {
          assert init[i] == layers[i];
        }
      }
    }
  }

  /** Scanning one more layer adds that layer's own subscription and nothing else. */
  lemma ImageSubsPrefixStep(layers: seq<Layer>, i: nat)
    requires i < |layers|
    ensures ImageSubs(layers[..i + 1]) == ImageSubs(layers[..i]) + OwnSubs(layers[i])
  {
    assert layers[..i + 1][..i] == layers[..i];
  }

  /** Appending a layer adds that layer's own subscription. */
  lemma ImageSubsSnoc(layers: seq<Layer>, l: Layer)
    ensures ImageSubs(layers + [l]) == ImageSubs(layers) + OwnSubs(l)
  {
    assert (layers + [l])[..|layers|] == layers;
  }

  /** Erasing a layer the list holds takes away exactly that layer's own subscription. */
  lemma ImageSubsRemoveFirst(layers: seq<Layer>, l: Layer)
    requires l in layers
    ensures ImageSubs(RemoveFirst(layers, l)) == ImageSubs(layers) - OwnSubs(l)
  {
    RemoveFirstSplit(layers, l);
    var i := IndexOf(layers, l);
    ImageSubsSplice(layers[..i], l, layers[i+1..]);
  }

  /** Taking one layer out of the middle of a list takes away its own subscription. */
  lemma ImageSubsSplice(a: seq<Layer>, l: Layer, b: seq<Layer>)
    ensures ImageSubs(a + [l] + b) - OwnSubs(l) == ImageSubs(a + b)
  {
    ImageSubsAppend(a + [l], b);
    ImageSubsSnoc(a, l);
    ImageSubsAppend(a, b);
    assert ImageSubs(a + [l] + b) == ImageSubs(a) + OwnSubs(l) + ImageSubs(b);
    Cancel(ImageSubs(a), OwnSubs(l), ImageSubs(b));
  }

  lemma Cancel(a: multiset<LayerId>, o: multiset<LayerId>, b: multiset<LayerId>)
    ensures (a + o + b) - o == a + b
  {
  }

  /** What the change does to the map's own layer list. */
  function MapAfter(layers: seq<Layer>, change: MapModelChange): (after: seq<Layer>) {
    match change.layer
    case None => layers
    case Some(l) =>
      if change.action == AddLayer then layers + [l]
      else if change.action == RemoveLayer then RemoveFirst(layers, l)
      else layers
  }

  /** A change the map can report: it only removes layers it holds. */
  predicate Consistent(layers: seq<Layer>, change: MapModelChange) {
    change.action == RemoveLayer && change.layer.Some? ==> change.layer.value in layers
  }

  function MapAfterAll(layers: seq<Layer>, changes: seq<MapModelChange>): (after: seq<Layer>)
    decreases |changes|
  {
    if changes == [] then layers else MapAfterAll(MapAfter(layers, changes[0]), changes[1..])
  }

  predicate ConsistentAll(layers: seq<Layer>, changes: seq<MapModelChange>)
    decreases |changes|
  {
    changes == [] ||
    (Consistent(layers, changes[0]) && ConsistentAll(MapAfter(layers, changes[0]), changes[1..]))
  }

  /** The notices the node receives for a history of map changes. */
  function Notices(changes: seq<MapModelChange>): (calls: seq<Call>)
    ensures |calls| == |changes|
    ensures forall i :: 0 <= i < |changes| ==> calls[i] == OnMapModelChanged(changes[i])
  {
    if changes == [] then [] else [OnMapModelChanged(changes[0])] + Notices(changes[1..])
  }

  /**
   One change notice keeps the invariant "one controller subscription per
   image layer in the map".
   */
  lemma ChangeKeepsSubscriptions(layers: seq<Layer>, subs: multiset<LayerId>, change: MapModelChange)
    requires Consistent(layers, change) && subs == ImageSubs(layers)
    ensures SubsAfter(subs, change) == ImageSubs(MapAfter(layers, change))
  {
    match change.layer
    case None =>
    case Some(l) =>
      if change.action == AddLayer {
        assert MapAfter(layers, change) == layers + [l];
        assert SubsAfter(subs, change) == subs + OwnSubs(l);
        ImageSubsSnoc(layers, l);
      } else if change.action == RemoveLayer {
        assert MapAfter(layers, change) == RemoveFirst(layers, l);
        assert SubsAfter(subs, change) == subs - OwnSubs(l);
        ImageSubsRemoveFirst(layers, l);
      } else {
        assert MapAfter(layers, change) == layers;
      }
  }

  /**
   However the map's layers are added, removed or moved, each image layer in the
   map keeps exactly one controller subscription as long as the node sees the
   notices.
   */
  lemma {:induction false} SubscriptionsFollowMap(s: State, layers: seq<Layer>, changes: seq<MapModelChange>)
    requires s.subs == ImageSubs(layers) && ConsistentAll(layers, changes)
    ensures Run(s, Notices(changes)).subs == ImageSubs(MapAfterAll(layers, changes))
    decreases |changes|
  {
    if changes != [] {
      var c, rest := changes[0], changes[1..];
      var calls := Notices(changes);
      assert calls[0] == OnMapModelChanged(c) && calls[1..] == Notices(rest);
      var t := Step(s, OnMapModelChanged(c));
      assert Run(s, calls) == Run(t, Notices(rest));
      assert t.subs == SubsAfter(s.subs, c);
      assert Consistent(layers, c) && ConsistentAll(MapAfter(layers, c), rest);
      assert MapAfterAll(layers, changes) == MapAfterAll(MapAfter(layers, c), rest);
      ChangeKeepsSubscriptions(layers, s.subs, c);
      SubscriptionsFollowMap(t, MapAfter(layers, c), rest);
    }
  }

  /**
   `setMap(null)` changes nothing; otherwise the node is bound, every image layer
   of the map gains one subscription and setup is complete.
   */
  lemma SetMapSubscribesImageLayers(s: State, layers: seq<Layer>)
    ensures Step(s, SetMap(None)) == s
    ensures var t := Step(s, SetMap(Some(layers)));
      t == s.(mapBound := true, subs := t.subs, stage := InitPostInitComplete) &&
      forall id :: t.subs[id] == s.subs[id] + ImageSubs(layers)[id]
  {
  }

  /**
   A node set up on a map, told of every change after, and destroyed while the
   map is alive leaves no controller subscription on any layer.
   */
  lemma LifecycleLeavesNoSubscriptions(layers: seq<Layer>, changes: seq<MapModelChange>)
    requires ConsistentAll(layers, changes)
    ensures var live := Run(Step(Initial(), SetMap(Some(layers))), Notices(changes));
      live.subs == ImageSubs(MapAfterAll(layers, changes)) &&
      Step(live, Destroy(Some(MapAfterAll(layers, changes)))).subs == multiset{}
  {
    var bound := Step(Initial(), SetMap(Some(layers)));
    assert bound.subs == ImageSubs(layers);
    SubscriptionsFollowMap(bound, layers, changes);
    NoticesKeepBinding(bound, changes);
    DestroyInSync(Run(bound, Notices(changes)), MapAfterAll(layers, changes));
  }

  /** A node destroyed while its subscriptions match the live map leaves none behind. */
  lemma DestroyInSync(s: State, layers: seq<Layer>)
    requires s.mapBound && s.subs == ImageSubs(layers)
    ensures Step(s, Destroy(Some(layers))).subs == multiset{}
  {
    assert s.subs - s.subs == multiset{};
  }

  /** Map-change notices do not unbind the map. */
  lemma {:induction false} NoticesKeepBinding(s: State, changes: seq<MapModelChange>)
    ensures Run(s, Notices(changes)).mapBound == s.mapBound
    decreases |changes|
  {
    if changes != [] {
      var calls := Notices(changes);
      assert calls[1..] == Notices(changes[1..]);
      NoticesKeepBinding(Step(s, calls[0]), changes[1..]);
    }
  }

  // -------------------------------------------------- tile-model callbacks

  /**
   When the factory builds no model nothing fires and nothing changes; when it
   builds one, every registered callback fires exactly once, in registry order,
   and nothing else changes.
   */
  lemma CreateTileModelFires(s: State, m: TileModel)
    ensures Step(s, CreateTileModel(None)) == s
    ensures var t := Step(s, CreateTileModel(Some(m)));
      t == s.(log := t.log) &&
      |t.log| == |s.log| + |s.createCallbacks| && t.log[..|s.log|] == s.log &&
      forall i :: 0 <= i < |s.createCallbacks| ==> t.log[|s.log| + i] == Fired(s.createCallbacks[i])
  {
    var t := Step(s, CreateTileModel(Some(m)));
    assert t.log[..|s.log|] == s.log;
  }

  /** Registering a callback that is not registered and removing it again restores the registry. */
  lemma AddThenRemoveCreateCallback(s: State, cb: CallbackId)
    requires cb !in s.createCallbacks
    ensures Run(s, [AddCreateTileModelCallback(cb), RemoveCreateTileModelCallback(cb)]) == s
  {
    RunTwo(s, AddCreateTileModelCallback(cb), RemoveCreateTileModelCallback(cb));
    RemoveFirstAfterAppend(s.createCallbacks, cb);
    var t := Step(s, AddCreateTileModelCallback(cb));
    assert t == s.(createCallbacks := s.createCallbacks + [cb]);
  }

  /**
   Removing a create-tile-model callback erases only its first registration; a
   callback that is not registered leaves the registry as it was.
   */
  lemma RemoveCreateCallbackErasesOne(s: State, cb: CallbackId)
    ensures var t := Step(s, RemoveCreateTileModelCallback(cb));
      t == s.(createCallbacks := t.createCallbacks) &&
      multiset(t.createCallbacks) == multiset(s.createCallbacks) - multiset{cb} &&
      (cb !in s.createCallbacks ==> t == s) &&
      (cb in s.createCallbacks ==>
         exists i :: 0 <= i < |s.createCallbacks| && s.createCallbacks[i] == cb && cb !in s.createCallbacks[..i] &&
                     t.createCallbacks == s.createCallbacks[..i] + s.createCallbacks[i+1..])
  {
    RemoveFirstMultiset(s.createCallbacks, cb);
    if cb in s.createCallbacks {
      RemoveFirstErasesFirstMatch(s.createCallbacks, cb);
    }
  }

  // ------------------------------------------------- tile-patch callbacks

  /**
   `removeTilePatchCallback(cb)` never shortens the list: its first n - k
   entries are the other callbacks in their original order, where k is the
   number of registrations of `cb`, and the last k entries are left as they were.
   */
  lemma RemoveTilePatchKeepsLength(s: State, cb: CallbackId)
    ensures var t := Step(s, RemoveTilePatchCallback(cb));
      var n, k := |s.patchCallbacks|, multiset(s.patchCallbacks)[cb];
      t == s.(patchCallbacks := t.patchCallbacks) &&
      |t.patchCallbacks| == n &&
      t.patchCallbacks[..n - k] == Filter(s.patchCallbacks, cb) &&
      t.patchCallbacks[n - k..] == s.patchCallbacks[n - k..]
  {
    StdRemoveSpec(s.patchCallbacks, cb);
  }

  /** A callback registered last is still registered after its removal. */
  lemma RemovedTilePatchCallbackStaysRegistered(s: State, a: CallbackId, cb: CallbackId)
    requires a != cb && s.patchCallbacks == [a, cb]
    ensures Step(s, RemoveTilePatchCallback(cb)).patchCallbacks == [a, cb]
  {
    StdRemoveKeepsTrailingMatch(a, cb);
  }
}
