/** The data of the entity-component simulation (src/App/Simulation/Types.ts):
    sparse entities whose every component is optional, the per-frame context
    variables and the whole simulation state. Numbers are exact reals; the
    canvas, the theme store and the systems are opaque handles. */
module SimTypes {
  import opened Wrappers

  /** A 2D vector (src/Vector/index.ts); only its coordinates matter here. */
  datatype Vector = Vector(x: real, y: real)

  /** The palette slots an entity may be filled with. */
  datatype FillStyle = Base08 | Base09 | Base0A | Base0B | Base0C | Base0D | Base0E | Base0F

  /** The only shape in use: a circle (kind 'circle-shape'). */
  datatype Shape = CircleShape(radius: real)
  {
    function Kind(): string { "circle-shape" }
  }

  /** `circleShape(radius)`. */
  function MakeCircleShape(radius: real): (s: Shape)
    ensures s.Kind() == "circle-shape" && s.radius == radius
  {
    CircleShape(radius)
  }

  /** Every component of an entity, each one optional. The flags
      `trackPosition` and `persistent` carry no value: present or absent. */
  datatype Components = Components(
    position: Option<Vector>,
    shape: Option<Shape>,
    fillStyle: Option<FillStyle>,
    velocity: Option<Vector>,
    mass: Option<real>,
    dragCoefficient: Option<real>,
    restitutionCoefficient: Option<real>,
    trackPosition: Option<()>,
    name: Option<string>,
    persistent: Option<()>)

  /** An entity: a mandatory id and the optional components. */
  datatype Entity = Entity(id: int, components: Components)

  /** An entity as stored, with the position and velocity it was created with. */
  datatype EntityWithInternals = EntityWithInternals(
    entity: Entity,
    startingPosition: Option<Vector>,
    startingVelocity: Option<Vector>)

  /** `entityWithInternals(entity)`: remember the creation-time position and
      velocity next to an otherwise unchanged entity. */
  function WithInternals(entity: Entity): (r: EntityWithInternals)
    ensures r.entity == entity
    ensures r.startingPosition == entity.components.position
    ensures r.startingVelocity == entity.components.velocity
  {
    EntityWithInternals(entity, entity.components.position, entity.components.velocity)
  }

  /** The entity moved back to where and how fast it started. */
  function Rewind(e: EntityWithInternals): EntityWithInternals
  {
    e.(entity := e.entity.(components := e.entity.components.(
         position := e.startingPosition, velocity := e.startingVelocity)))
  }

  /** An entity that was just given its internals is already at its start:
      rewinding it changes nothing, and rewinding is idempotent. */
  lemma RewindFresh(entity: Entity, e: EntityWithInternals)
    ensures Rewind(WithInternals(entity)) == WithInternals(entity)
    ensures Rewind(Rewind(e)) == Rewind(e)
    ensures Rewind(e).entity.id == e.entity.id
  {
  }

  /** Handles for what the model does not look into. */
  datatype CanvasAndContext = CanvasAndContext(handle: nat)
  datatype ThemeStoreRef = ThemeStoreRef(handle: nat)
  /** A system is a closure over the whole store; only its identity is kept. */
  datatype System = System(handle: nat)

  /** The per-frame context. `spacePressedAt` is the boost timestamp written by
      the key recorders of the store. */
  datatype ContextVars = ContextVars(
    frameStartAt: real,
    dt: real,
    canvasAndContext: Option<CanvasAndContext>,
    running: Option<()>,
    themeStore: ThemeStoreRef,
    spacePressedAt: Option<real>)

  /** `makeContextVars(themeStore)`, with the clock reading `now` passed in. */
  function MakeContextVars(themeStore: ThemeStoreRef, now: real): (c: ContextVars)
    ensures c.frameStartAt == now && c.dt == 0.001
    ensures c.canvasAndContext.None? && c.running.None? && c.spacePressedAt.None?
    ensures c.themeStore == themeStore
  {
    ContextVars(now, 0.001, None, None, themeStore, None)
  }

  /** A recorded trail point. */
  datatype Trace = Trace(position: Vector, fillStyle: FillStyle, id: int)

  datatype State = State(
    entities: seq<EntityWithInternals>,
    traces: seq<Trace>,
    contextVars: ContextVars,
    systems: seq<System>)

  /** `makeState(themeStore)`: nothing registered yet. */
  function MakeState(themeStore: ThemeStoreRef, now: real): (s: State)
    ensures s.entities == [] && s.traces == [] && s.systems == []
    ensures s.contextVars == MakeContextVars(themeStore, now)
  {
    State([], [], MakeContextVars(themeStore, now), [])
  }
}
