/** The simulation store (src/App/Simulation/Store.ts): one mutable record
    holding the entities, the registered systems, the recorded traces and the
    per-frame context. The operations that the store performs on entity
    lists are specified here by functions on sequences, and the class
    methods are proved to update `state` exactly by them. */
module SimStore {
  import opened Wrappers
  import opened Seqs
  import opened SimTypes

  // ---------------------------------------------------------------------------
  // Ids

  /** No two stored entities share an id. */
  ghost predicate UniqueIds(es: seq<EntityWithInternals>)
  {
    forall i, j :: 0 <= i < j < |es| ==> es[i].entity.id != es[j].entity.id
  }

  /** The `reduce` of `addEntity`: the largest id met, starting from `acc`. */
  function MaxIdFrom(acc: int, es: seq<EntityWithInternals>): (r: int)
    ensures r >= acc
    ensures forall k :: 0 <= k < |es| ==> es[k].entity.id <= r
    ensures r == acc || exists k :: 0 <= k < |es| && r == es[k].entity.id
    decreases |es|
  {
    if es == [] then acc
    else MaxIdFrom(if es[0].entity.id > acc then es[0].entity.id else acc, es[1..])
  }

  /** The id `addEntity` gives a new entity: one more than the largest of 0
      and the existing ids. */
  function NextId(es: seq<EntityWithInternals>): (id: int)
    ensures id >= 1
    ensures forall k :: 0 <= k < |es| ==> es[k].entity.id < id
    ensures id == 1 || exists k :: 0 <= k < |es| && es[k].entity.id == id - 1
  {
    MaxIdFrom(0, es) + 1
  }

  /** The first entity gets id 1. */
  lemma FirstIdIsOne()
    ensures NextId([]) == 1
  {
  }

  /** What `addEntity(c)` appends. */
  function Added(es: seq<EntityWithInternals>, c: Components): seq<EntityWithInternals>
  {
    es + [WithInternals(Entity(NextId(es), c))]
  }

  lemma AddedKeepsUniqueIds(es: seq<EntityWithInternals>, c: Components)
    requires UniqueIds(es)
    ensures UniqueIds(Added(es, c))
    ensures |Added(es, c)| == |es| + 1 && Added(es, c)[..|es|] == es
  {
    var r := Added(es, c);
    assert r[..|es|] == es;
    forall i, j | 0 <= i < j < |r| ensures r[i].entity.id != r[j].entity.id {
      if j == |es| {
        assert r[i] == es[i];
      }
    }
  }

  // ---------------------------------------------------------------------------
  // withEntities and updateEntity

  /** `{ ...entity, ...ret }`, where `ret` is what the callback gave back, or
      the entity itself when it gave back nothing (void or an empty Maybe).
      The callback's result is an `Entity`, so the internals are kept. */
  function Merge(e: EntityWithInternals, ret: Option<Entity>): EntityWithInternals
  {
    match ret
    case None => e
    case Some(x) => e.(entity := x)
  }

  /** The new entity list of `withEntities(fn)`. */
  function MapEntities(es: seq<EntityWithInternals>, fn: EntityWithInternals -> Option<Entity>): seq<EntityWithInternals>
  {
    seq(|es|, k requires 0 <= k < |es| => Merge(es[k], fn(es[k])))
  }

  /** `withEntities` keeps the list's length and every entity's starting
      position and velocity; an entity for which the callback returns nothing
      is kept as it was. */
  lemma MapEntitiesFrame(es: seq<EntityWithInternals>, fn: EntityWithInternals -> Option<Entity>, k: int)
    requires 0 <= k < |es|
    ensures |MapEntities(es, fn)| == |es|
    ensures MapEntities(es, fn)[k].startingPosition == es[k].startingPosition
    ensures MapEntities(es, fn)[k].startingVelocity == es[k].startingVelocity
    ensures fn(es[k]).None? ==> MapEntities(es, fn)[k] == es[k]
    ensures fn(es[k]).Some? ==> MapEntities(es, fn)[k].entity == fn(es[k]).value
  {
  }

  /** A callback that returns nothing for every entity changes nothing. */
  lemma MapEntitiesNothing(es: seq<EntityWithInternals>, fn: EntityWithInternals -> Option<Entity>)
    requires forall k :: 0 <= k < |es| ==> fn(es[k]).None?
    ensures MapEntities(es, fn) == es
  {
  }

  /** A callback that keeps ids keeps them unique. */
  lemma MapEntitiesKeepsUniqueIds(es: seq<EntityWithInternals>, fn: EntityWithInternals -> Option<Entity>)
    requires UniqueIds(es)
    requires forall k :: 0 <= k < |es| && fn(es[k]).Some? ==> fn(es[k]).value.id == es[k].entity.id
    ensures UniqueIds(MapEntities(es, fn))
  {
    var r := MapEntities(es, fn);
    forall k | 0 <= k < |es| ensures r[k].entity.id == es[k].entity.id {
    }
  }

  /** The argument of `updateEntity`: for each component, either absent (keep
      the entity's value) or present with the value to write, itself an
      optional component. */
  datatype Patch = Patch(
    position: Option<Option<Vector>>,
    shape: Option<Option<Shape>>,
    fillStyle: Option<Option<FillStyle>>,
    velocity: Option<Option<Vector>>,
    mass: Option<Option<real>>,
    dragCoefficient: Option<Option<real>>,
    restitutionCoefficient: Option<Option<real>>,
    trackPosition: Option<Option<()>>,
    name: Option<Option<string>>,
    persistent: Option<Option<()>>)

  const EmptyPatch := Patch(None, None, None, None, None, None, None, None, None, None)

  function Over<T>(old_: T, patched: Option<T>): T
  {
    match patched
    case None => old_
    case Some(v) => v
  }

  /** `{ ...components, ...patch }`. */
  function ApplyPatch(c: Components, p: Patch): Components
  {
    Components(
      Over(c.position, p.position),
      Over(c.shape, p.shape),
      Over(c.fillStyle, p.fillStyle),
      Over(c.velocity, p.velocity),
      Over(c.mass, p.mass),
      Over(c.dragCoefficient, p.dragCoefficient),
      Over(c.restitutionCoefficient, p.restitutionCoefficient),
      Over(c.trackPosition, p.trackPosition),
      Over(c.name, p.name),
      Over(c.persistent, p.persistent))
  }

  /** The empty patch changes nothing, and a patch applied twice has the
      effect of applying it once. */
  lemma ApplyPatchLaws(c: Components, p: Patch)
    ensures ApplyPatch(c, EmptyPatch) == c
    ensures ApplyPatch(ApplyPatch(c, p), p) == ApplyPatch(c, p)
  {
  }

  /** `updateEntity` overwrites only the patched components: a component
      the patch leaves out keeps its value, one the patch holds gets the
      patch's value. */
  lemma ApplyPatchOverwritesOnlyPatched(c: Components, p: Patch)
    ensures p.position.None? ==> ApplyPatch(c, p).position == c.position
    ensures p.position.Some? ==> ApplyPatch(c, p).position == p.position.value
    ensures p.shape.None? ==> ApplyPatch(c, p).shape == c.shape
    ensures p.shape.Some? ==> ApplyPatch(c, p).shape == p.shape.value
    ensures p.fillStyle.None? ==> ApplyPatch(c, p).fillStyle == c.fillStyle
    ensures p.fillStyle.Some? ==> ApplyPatch(c, p).fillStyle == p.fillStyle.value
    ensures p.velocity.None? ==> ApplyPatch(c, p).velocity == c.velocity
    ensures p.velocity.Some? ==> ApplyPatch(c, p).velocity == p.velocity.value
    ensures p.mass.None? ==> ApplyPatch(c, p).mass == c.mass
    ensures p.mass.Some? ==> ApplyPatch(c, p).mass == p.mass.value
    ensures p.dragCoefficient.None? ==> ApplyPatch(c, p).dragCoefficient == c.dragCoefficient
    ensures p.dragCoefficient.Some? ==> ApplyPatch(c, p).dragCoefficient == p.dragCoefficient.value
    ensures p.restitutionCoefficient.None? ==> ApplyPatch(c, p).restitutionCoefficient == c.restitutionCoefficient
    ensures p.restitutionCoefficient.Some? ==> ApplyPatch(c, p).restitutionCoefficient == p.restitutionCoefficient.value
    ensures p.trackPosition.None? ==> ApplyPatch(c, p).trackPosition == c.trackPosition
    ensures p.trackPosition.Some? ==> ApplyPatch(c, p).trackPosition == p.trackPosition.value
    ensures p.name.None? ==> ApplyPatch(c, p).name == c.name
    ensures p.name.Some? ==> ApplyPatch(c, p).name == p.name.value
    ensures p.persistent.None? ==> ApplyPatch(c, p).persistent == c.persistent
    ensures p.persistent.Some? ==> ApplyPatch(c, p).persistent == p.persistent.value
  {
  }

  /** The callback `updateEntity(entityId, patch)` hands to `withEntities`. */
  function PatchFn(entityId: int, patch: Patch): EntityWithInternals -> Option<Entity>
  {
    (e: EntityWithInternals) => Some(if e.entity.id == entityId
              then e.entity.(components := ApplyPatch(e.entity.components, patch))
              else e.entity)
  }

  /** `updateEntity` patches the entity with the given id and nothing else:
      the length, the order, every id and every starting value stay. */
  lemma UpdateEntityEffect(es: seq<EntityWithInternals>, entityId: int, patch: Patch, k: int)
    requires 0 <= k < |es|
    ensures |MapEntities(es, PatchFn(entityId, patch))| == |es|
    ensures MapEntities(es, PatchFn(entityId, patch))[k].entity.id == es[k].entity.id
    ensures MapEntities(es, PatchFn(entityId, patch))[k].startingPosition == es[k].startingPosition
    ensures MapEntities(es, PatchFn(entityId, patch))[k].startingVelocity == es[k].startingVelocity
    ensures MapEntities(es, PatchFn(entityId, patch))[k].entity.components ==
            if es[k].entity.id == entityId then ApplyPatch(es[k].entity.components, patch)
            else es[k].entity.components
  {
  }

  /** Updating an id no entity has changes nothing. */
  lemma UpdateUnknownId(es: seq<EntityWithInternals>, entityId: int, patch: Patch)
    requires forall k :: 0 <= k < |es| ==> es[k].entity.id != entityId
    ensures MapEntities(es, PatchFn(entityId, patch)) == es
  {
    var r := MapEntities(es, PatchFn(entityId, patch));
    forall k | 0 <= k < |es| ensures r[k] == es[k] {
    }
  }

  lemma UpdateEntityKeepsUniqueIds(es: seq<EntityWithInternals>, entityId: int, patch: Patch)
    requires UniqueIds(es)
    ensures UniqueIds(MapEntities(es, PatchFn(entityId, patch)))
  {
    MapEntitiesKeepsUniqueIds(es, PatchFn(entityId, patch));
  }

  // ---------------------------------------------------------------------------
  // filterEntities

  lemma {:induction false} FilterKeepsUniqueIds(es: seq<EntityWithInternals>, pred: EntityWithInternals -> bool)
    requires UniqueIds(es)
    ensures UniqueIds(Filter(es, pred))
  {
    if es != [] {
      var rest := es[1..];
      FilterKeepsUniqueIds(rest, pred);
      if pred(es[0]) {
        var r := Filter(es, pred);
        assert r == [es[0]] + Filter(rest, pred);
        forall j | 1 <= j < |r| ensures r[0].entity.id != r[j].entity.id {
          assert r[j] in Filter(rest, pred);
          FilterMembership(rest, pred, r[j]);
          var m :| 0 <= m < |rest| && rest[m] == r[j];
          assert es[m + 1] == r[j];
        }
      }
    }
  }

  /** The filter predicate that drops the entity with id `n`. */
  function NotId(n: int): EntityWithInternals -> bool
  {
    (e: EntityWithInternals) => e.entity.id != n
  }

  /** Ids are handed out again: after two `addEntity` calls, filtering out the
      entity with id 2 makes the next `addEntity` issue id 2 once more. */
  lemma IdReused(c: Components, d: Components)
    ensures var es := Added(Added([], c), d);
      es[1].entity.id == 2 && NextId(Filter(es, NotId(2))) == 2
  {
    var es := Added(Added([], c), d);
    assert es[0].entity.id == 1 && es[1].entity.id == 2;
    assert Filter(es, NotId(2)) == [es[0]] by {
      assert es[1..][1..] == [];
    }
  }

  // ---------------------------------------------------------------------------
  // restart

  /** The callback of `restart`'s `mapMaybe`: a persistent entity is kept and
      rewound, any other entity is dropped. */
  function RestartOne(e: EntityWithInternals): Option<EntityWithInternals>
  {
    if e.entity.components.persistent.Some? then Some(Rewind(e)) else None
  }

  /** The new entity list of `restart`. */
  function Restarted(es: seq<EntityWithInternals>): seq<EntityWithInternals>
  {
    MapMaybe(RestartOne, es)
  }

  /** After a restart the store holds exactly the persistent entities, each
      rewound to its starting position and velocity. */
  lemma RestartedMembership(es: seq<EntityWithInternals>, x: EntityWithInternals)
    ensures x in Restarted(es) <==>
            exists k :: 0 <= k < |es| && es[k].entity.components.persistent.Some? && x == Rewind(es[k])
  {
    MapMaybeMembership(RestartOne, es, x);
    if exists k :: 0 <= k < |es| && RestartOne(es[k]) == Some(x) {
      var k :| 0 <= k < |es| && RestartOne(es[k]) == Some(x);
      assert es[k].entity.components.persistent.Some? && x == Rewind(es[k]);
    }
    if exists k :: 0 <= k < |es| && es[k].entity.components.persistent.Some? && x == Rewind(es[k]) {
      var k :| 0 <= k < |es| && es[k].entity.components.persistent.Some? && x == Rewind(es[k]);
      assert RestartOne(es[k]) == Some(x);
    }
  }

  /** Restart keeps the relative order of what it keeps. */
  lemma RestartedConcat(a: seq<EntityWithInternals>, b: seq<EntityWithInternals>)
    ensures Restarted(a + b) == Restarted(a) + Restarted(b)
  {
    MapMaybeConcat(RestartOne, a, b);
  }

  /** Restarting twice is restarting once. */
  lemma {:induction false} RestartedIdempotent(es: seq<EntityWithInternals>)
    ensures Restarted(Restarted(es)) == Restarted(es)
  {
    if es != [] {
      RestartedIdempotent(es[1..]);
      if es[0].entity.components.persistent.Some? {
        var r := Restarted(es);
        assert r == [Rewind(es[0])] + Restarted(es[1..]);
        assert r[1..] == Restarted(es[1..]);
        assert Restarted(r) == [Rewind(Rewind(es[0]))] + Restarted(r[1..]);
      }
    }
  }

  lemma {:induction false} RestartedKeepsUniqueIds(es: seq<EntityWithInternals>)
    requires UniqueIds(es)
    ensures UniqueIds(Restarted(es))
  {
    if es != [] {
      var rest := es[1..];
      RestartedKeepsUniqueIds(rest);
      if es[0].entity.components.persistent.Some? {
        var r := Restarted(es);
        assert r == [Rewind(es[0])] + Restarted(rest);
        forall j | 1 <= j < |r| ensures r[0].entity.id != r[j].entity.id {
          assert r[j] in Restarted(rest);
          RestartedMembership(rest, r[j]);
          var m :| 0 <= m < |rest| && rest[m].entity.components.persistent.Some? && r[j] == Rewind(rest[m]);
          assert es[m + 1] == rest[m];
        }
      }
    }
  }

  // ---------------------------------------------------------------------------
  // updateTime

  /** The largest time step, in seconds. */
  const MaxDt: real := 1.0 / 30.0

  /** `Math.min(elapsedMs / 1000, 1 / 30)`. */
  function ClampDt(elapsedMs: real): (dt: real)
    ensures dt <= MaxDt && dt <= elapsedMs / 1000.0
    ensures dt == MaxDt || dt == elapsedMs / 1000.0
  {
    if elapsedMs / 1000.0 < MaxDt then elapsedMs / 1000.0 else MaxDt
  }

  // ---------------------------------------------------------------------------
  // Extremes of the positioned entities

  /** A number of JavaScript's extended line: the folds start at an infinity. */
  datatype Extended = NegInf | Finite(value: real) | PosInf

  function Rank(a: Extended): int
  {
    match a
    case NegInf => 0
    case Finite(_) => 1
    case PosInf => 2
  }

  predicate Less(a: Extended, b: Extended)
  {
    Rank(a) < Rank(b) || (a.Finite? && b.Finite? && a.value < b.value)
  }

  predicate AtMost(a: Extended, b: Extended)
  {
    !Less(b, a)
  }

  datatype Axis = X | Y

  predicate HasPosition(e: EntityWithInternals)
  {
    e.entity.components.position.Some?
  }

  /** The chosen coordinate of a positioned entity. */
  function At(e: EntityWithInternals, axis: Axis): Extended
    requires HasPosition(e)
  {
    var p := e.entity.components.position.value;
    Finite(if axis == X then p.x else p.y)
  }

  /** `r` is the least coordinate of the positioned entities, or +infinity
      when none has a position. */
  ghost predicate IsMinOf(r: Extended, es: seq<EntityWithInternals>, axis: Axis)
  {
    && (forall k :: 0 <= k < |es| && HasPosition(es[k]) ==> AtMost(r, At(es[k], axis)))
    && ((exists k :: 0 <= k < |es| && HasPosition(es[k])) ==>
          exists k :: 0 <= k < |es| && HasPosition(es[k]) && r == At(es[k], axis))
    && ((forall k :: 0 <= k < |es| ==> !HasPosition(es[k])) ==> r == PosInf)
  }

  /** `r` is the greatest coordinate of the positioned entities, or -infinity
      when none has a position. */
  ghost predicate IsMaxOf(r: Extended, es: seq<EntityWithInternals>, axis: Axis)
  {
    && (forall k :: 0 <= k < |es| && HasPosition(es[k]) ==> AtMost(At(es[k], axis), r))
    && ((exists k :: 0 <= k < |es| && HasPosition(es[k])) ==>
          exists k :: 0 <= k < |es| && HasPosition(es[k]) && r == At(es[k], axis))
    && ((forall k :: 0 <= k < |es| ==> !HasPosition(es[k])) ==> r == NegInf)
  }

  /** The `reduce` of `minEntityX`/`minEntityY` from the accumulator `acc`:
      a positioned entity replaces the accumulator when strictly smaller. */
  function MinFold(acc: Extended, es: seq<EntityWithInternals>, axis: Axis): (r: Extended)
    ensures AtMost(r, acc)
    ensures forall k :: 0 <= k < |es| && HasPosition(es[k]) ==> AtMost(r, At(es[k], axis))
    ensures r == acc || exists k :: 0 <= k < |es| && HasPosition(es[k]) && r == At(es[k], axis)
    decreases |es|
  {
    if es == [] then acc
    else
      var next := if HasPosition(es[0]) && Less(At(es[0], axis), acc) then At(es[0], axis) else acc;
      var r := MinFold(next, es[1..], axis);
      assert forall k :: 1 <= k < |es| ==> es[k] == es[1..][k - 1];
      r
  }

  /** The `reduce` of `maxEntityX`/`maxEntityY`. */
  function MaxFold(acc: Extended, es: seq<EntityWithInternals>, axis: Axis): (r: Extended)
    ensures AtMost(acc, r)
    ensures forall k :: 0 <= k < |es| && HasPosition(es[k]) ==> AtMost(At(es[k], axis), r)
    ensures r == acc || exists k :: 0 <= k < |es| && HasPosition(es[k]) && r == At(es[k], axis)
    decreases |es|
  {
    if es == [] then acc
    else
      var next := if HasPosition(es[0]) && Less(acc, At(es[0], axis)) then At(es[0], axis) else acc;
      var r := MaxFold(next, es[1..], axis);
      assert forall k :: 1 <= k < |es| ==> es[k] == es[1..][k - 1];
      r
  }

  lemma MinFromPosInf(es: seq<EntityWithInternals>, axis: Axis)
    ensures IsMinOf(MinFold(PosInf, es, axis), es, axis)
  {
  }

  lemma MaxFromNegInf(es: seq<EntityWithInternals>, axis: Axis)
    ensures IsMaxOf(MaxFold(NegInf, es, axis), es, axis)
  {
  }

  // ---------------------------------------------------------------------------
  // The store

  class SimulationStore {
    var state: State

    /** The source builds its state with `makeState()`; the theme store and
        the clock reading it needs are passed in. */
    constructor (themeStore: ThemeStoreRef, now: real)
      ensures state == MakeState(themeStore, now)
      ensures Valid()
    {
      state := MakeState(themeStore, now);
    }

    /** The invariant that the entity operations keep. */
    ghost predicate Valid()
      reads this
    {
      UniqueIds(state.entities)
    }

    method AddEntity(c: Components)
      modifies this
      ensures state == old(state).(entities := Added(old(state).entities, c))
      ensures old(Valid()) ==> Valid()
    {
      var id := NextId(state.entities);
      state := state.(entities := state.entities + [WithInternals(Entity(id, c))]);
      if UniqueIds(old(state).entities) {
        AddedKeepsUniqueIds(old(state).entities, c);
      }
    }

    method AddSystem(system: System)
      modifies this
      ensures state == old(state).(systems := old(state).systems + [system])
    {
      state := state.(systems := state.systems + [system]);
    }

    method AddTrace(trace: Trace)
      modifies this
      ensures state == old(state).(traces := old(state).traces + [trace])
    {
      state := state.(traces := state.traces + [trace]);
    }

    method WithEntities(fn: EntityWithInternals -> Option<Entity>)
      modifies this
      ensures state == old(state).(entities := MapEntities(old(state).entities, fn))
    {
      state := state.(entities := MapEntities(state.entities, fn));
    }

    method FilterEntities(pred: EntityWithInternals -> bool)
      modifies this
      ensures state == old(state).(entities := Filter(old(state).entities, pred))
      ensures old(Valid()) ==> Valid()
    {
      state := state.(entities := Filter(state.entities, pred));
      if UniqueIds(old(state).entities) {
        FilterKeepsUniqueIds(old(state).entities, pred);
      }
    }

    /** A key-down event: `key` and `repeat` of the event, `now` the clock. */
    method RecordSpacePressed(key: string, repeat: bool, now: real)
      modifies this
      ensures state == if key == " " && !repeat
                       then old(state).(contextVars := old(state).contextVars.(spacePressedAt := Some(now)))
                       else old(state)
    {
      if key == " " && !repeat {
        state := state.(contextVars := state.contextVars.(spacePressedAt := Some(now)));
      }
    }

    method RecordSpaceReleased(key: string)
      modifies this
      ensures state == if key == " "
                       then old(state).(contextVars := old(state).contextVars.(spacePressedAt := None))
                       else old(state)
    {
      if key == " " {
        state := state.(contextVars := state.contextVars.(spacePressedAt := None));
      }
    }

    method UpdateTime(time: real)
      modifies this
      ensures state.contextVars.dt <= MaxDt
      ensures state == old(state).(contextVars := old(state).contextVars.(
                dt := ClampDt(time - old(state).contextVars.frameStartAt),
                frameStartAt := time))
    {
      var dt := ClampDt(time - state.contextVars.frameStartAt);
      state := state.(contextVars := state.contextVars.(dt := dt));
      state := state.(contextVars := state.contextVars.(frameStartAt := time));
    }

    method SetCanvasAndContext(canvasAndContext: CanvasAndContext)
      modifies this
      ensures state == old(state).(contextVars := old(state).contextVars.(canvasAndContext := Some(canvasAndContext)))
    {
      state := state.(contextVars := state.contextVars.(canvasAndContext := Some(canvasAndContext)));
    }

    method Pause()
      modifies this
      ensures state == old(state).(contextVars := old(state).contextVars.(running := None))
    {
      state := state.(contextVars := state.contextVars.(running := None));
    }

    method Run()
      modifies this
      ensures state == old(state).(contextVars := old(state).contextVars.(running := Some(())))
    {
      state := state.(contextVars := state.contextVars.(running := Some(())));
    }

    method Restart()
      modifies this
      ensures state == old(state).(entities := Restarted(old(state).entities), traces := [])
      ensures old(Valid()) ==> Valid()
    {
      state := state.(entities := Restarted(state.entities));
      state := state.(traces := []);
      if UniqueIds(old(state).entities) {
        RestartedKeepsUniqueIds(old(state).entities);
      }
    }

    method UpdateEntity(entityId: int, patch: Patch)
      modifies this
      ensures state == old(state).(entities := MapEntities(old(state).entities, PatchFn(entityId, patch)))
      ensures old(Valid()) ==> Valid()
    {
      WithEntities(PatchFn(entityId, patch));
      if UniqueIds(old(state).entities) {
        UpdateEntityKeepsUniqueIds(old(state).entities, entityId, patch);
      }
    }

    function MinEntityX(): (r: Extended)
      reads this
      ensures IsMinOf(r, state.entities, X)
    {
      MinFold(PosInf, state.entities, X)
    }

    function MaxEntityX(): (r: Extended)
      reads this
      ensures IsMaxOf(r, state.entities, X)
    {
      MaxFold(NegInf, state.entities, X)
    }

    function MinEntityY(): (r: Extended)
      reads this
      ensures IsMinOf(r, state.entities, Y)
    {
      MinFold(PosInf, state.entities, Y)
    }

    function MaxEntityY(): (r: Extended)
      reads this
      ensures IsMaxOf(r, state.entities, Y)
    {
      MaxFold(NegInf, state.entities, Y)
    }

    /** The view's bottom edge is the ground line. */
    function MinViewY(): (r: real)
      ensures r == 0.0
    {
      0.0
    }
  }
}
