# valcity: the discrete core of the physics toy

valcity is a browser toy in which circular bodies fall, bounce and are drawn
on a canvas. Its physics is floating-point numerics. This model covers the
parts of it that are discrete:

- **The simulation store** (`SimulationStore`, with its record types). It holds
  sparse entities, in which every component is optional and the id is
  mandatory. It also holds the registered systems, the recorded trail points
  ("traces") and the per-frame context: `dt`, the frame start time, the
  running flag, the canvas and the boost (space key) timestamp.
- **The grid-line weight rule** `calcLineWidth`. There are two copies: a
  `while` loop in the renderer and an older `for` loop in the app.
- **The "click to show" toggle and the theme picker's store.**

Modules follow the source files:

- `SimTypes`: `src/App/Simulation/Types.ts`.
- `SimStore`: `src/App/Simulation/Store.ts`. The list operations are specified
  by functions on sequences. The `SimulationStore` class holds one `state`
  field, and its methods are proved to update it exactly by those functions.
- `LineWeight`: the rule both copies implement.
- `SimRender` and `App`: the two loop copies.
- `ClickToShow`: the toggle.
- `ThemeTypes` and `ThemeStore`: the theme table and the theme store.
- `Seqs` and `Wrappers`: the library helpers the source relies on. These are
  `filter`, `mapMaybe` and maybeasy's `Maybe`, modelled as `Option`.

Modelling choices:

- Numbers are exact `real`s. Positions are used only for comparison.
- The folds behind `minEntityX` and its siblings start at ±∞, so they return
  an `Extended` value (`NegInf | Finite | PosInf`).
- JavaScript's `%` truncates toward zero. It is modelled by `LineWeight.JsRem`,
  because the renderer passes negative grid indices.
- `calcLineWidth` returns `0.005 · 3^k`. The model returns the integer
  weight `3^k`.
- The clock (`performance.now()`) and the keyboard event's `key` and `repeat`
  fields become parameters.
- The canvas, the theme store reference and the systems are opaque handles.
  A system is a closure over the whole store, so only its identity is kept.

## Behaviour of the code worth knowing

- `restart` keeps only the entities that have the `persistent` flag.
  It rewinds each of them to its starting position and velocity and drops
  every other entity (`Store.ts:111-122`).
- Ids are reused. `addEntity` takes one more than the largest id present
  (`Store.ts:54`). Once `filterEntities` (`Store.ts:79`) has removed the
  entity with the largest id, the next `addEntity` issues that id again.
  `filterEntities` keeps the traces, and a trace carries an entity id
  (`Types.ts:105`), so old trail points then name the new entity.
  `SimStore.IdReused` shows this.
- `Store.ts` assigns `contextVars.spacePressedAt`, but the `ContextVars` type
  and `makeContextVars` do not declare it. The model gives `ContextVars` an
  `Option<real>` field for it, starting absent.
- `Store.ts:20` calls `makeState()` without the theme store that
  `Types.ts:114` expects. The model's constructor takes the theme store and the
  clock reading as parameters.
- The theme state built by `makeState` (ThemeStore `Types.ts:43-47`) also
  carries the `dark` flag of the option it spreads. `setTheme` never updates
  that flag. The model keeps the field and proves that it never changes.

## Model

| member | source | states |
|---|---|---|
| SimStore.MaxIdFrom | src/App/Simulation/Store.ts:54 | the id fold returns at least its start, at least every id, and is its start or one of the ids |
| SimStore.NextId | src/App/Simulation/Store.ts:54 | a new id is at least 1, above every existing id, and one more than 0 or than an existing id (so it is 1 + max(0, ids)) |
| SimStore.FirstIdIsOne | src/App/Simulation/Store.ts:54 | the first entity of an empty store gets id 1 |
| SimStore.AddedKeepsUniqueIds | src/App/Simulation/Store.ts:53-56 | adding appends exactly one entity, keeps the existing prefix, and keeps ids pairwise distinct |
| SimStore.Added | src/App/Simulation/Store.ts:54-55 | definition, no contract: the list addEntity leaves; characterised by AddedKeepsUniqueIds and NextId |
| SimStore.SimulationStore.AddEntity | src/App/Simulation/Store.ts:53-56 | the entity list becomes the old list plus the new entity (id NextId, with its starting values remembered); nothing else changes; unique ids are kept |
| SimStore.SimulationStore.AddSystem | src/App/Simulation/Store.ts:58-60 | appends one system; nothing else changes |
| SimStore.SimulationStore.AddTrace | src/App/Simulation/Store.ts:62-64 | appends one trace; nothing else changes |
| SimStore.Merge | src/App/Simulation/Store.ts:72-74 | definition, no contract: the spread of the callback's result over the entity; characterised by MapEntitiesFrame |
| SimStore.MapEntities | src/App/Simulation/Store.ts:71-75 | definition, no contract: the mapped list of withEntities; characterised by MapEntitiesFrame, MapEntitiesNothing and MapEntitiesKeepsUniqueIds |
| SimStore.SimulationStore.WithEntities | src/App/Simulation/Store.ts:70-76 | each entity is merged with the callback's result, or kept when the result is nothing; nothing else changes |
| SimStore.MapEntitiesFrame | src/App/Simulation/Store.ts:70-76 | withEntities keeps the length and every starting position and velocity; an empty callback result keeps the entity; a result replaces the entity part |
| SimStore.MapEntitiesNothing | src/App/Simulation/Store.ts:72-74 | a callback that always returns nothing leaves the list unchanged |
| SimStore.MapEntitiesKeepsUniqueIds | src/App/Simulation/Store.ts:70-76 | a callback that keeps ids keeps them unique |
| SimStore.ApplyPatch | src/App/Simulation/Store.ts:125 | definition, no contract: the spread of a patch over the components; characterised by ApplyPatchOverwritesOnlyPatched and ApplyPatchLaws |
| SimStore.PatchFn | src/App/Simulation/Store.ts:125 | definition, no contract: the callback updateEntity passes to withEntities; characterised by UpdateEntityEffect and UpdateUnknownId |
| SimStore.ApplyPatchLaws | src/App/Simulation/Store.ts:125 | merging the empty patch changes nothing; merging a patch twice equals merging it once |
| SimStore.ApplyPatchOverwritesOnlyPatched | src/App/Simulation/Store.ts:125 | for each of the ten components: left out of the patch, it keeps its value; in the patch, it takes the patch's value |
| SimStore.UpdateEntityEffect | src/App/Simulation/Store.ts:124-126 | updateEntity patches only the entity with that id; length, order, every id and all starting values stay |
| SimStore.UpdateUnknownId | src/App/Simulation/Store.ts:124-126 | updating an id that no entity has leaves the list unchanged |
| SimStore.UpdateEntityKeepsUniqueIds | src/App/Simulation/Store.ts:124-126 | updateEntity keeps ids unique |
| SimStore.SimulationStore.UpdateEntity | src/App/Simulation/Store.ts:124-126 | the entity list is withEntities with the patching callback; nothing else changes; unique ids are kept |
| Seqs.Filter | src/App/Simulation/Store.ts:79 | the filtered list is no longer than the input and every element satisfies the predicate |
| Seqs.FilterMultiset | src/App/Simulation/Store.ts:79 | an element satisfying the predicate keeps all its occurrences; any other element has none |
| Seqs.FilterMembership | src/App/Simulation/Store.ts:79 | an element is in the result exactly when it is in the input and satisfies the predicate |
| Seqs.FilterConcat | src/App/Simulation/Store.ts:79 | filtering distributes over concatenation, so the kept elements keep their relative order |
| Seqs.FilterKeepsAll | src/App/Simulation/Store.ts:79 | when every element passes, the list is unchanged |
| SimStore.IdReused | src/App/Simulation/Store.ts:53-56 | ids are reused: after adding two entities and filtering out the one with id 2, the next addEntity issues id 2 again |
| SimStore.FilterKeepsUniqueIds | src/App/Simulation/Store.ts:78-80 | filtering keeps ids unique |
| SimStore.SimulationStore.FilterEntities | src/App/Simulation/Store.ts:78-80 | the entity list becomes its filter by the predicate; nothing else changes; unique ids are kept |
| Seqs.MapMaybe | src/App/Simulation/Store.ts:112-120 | mapMaybe never lengthens the list |
| Seqs.MapMaybeConcat | src/App/Simulation/Store.ts:112-120 | mapMaybe distributes over concatenation, keeping order |
| Seqs.MapMaybeMembership | src/App/Simulation/Store.ts:112-120 | y is in the result exactly when some element maps to Some(y) |
| SimTypes.Rewind | src/App/Simulation/Store.ts:114-118 | definition, no contract: position and velocity back to their starting values; characterised by RewindFresh |
| SimStore.RestartOne | src/App/Simulation/Store.ts:113-118 | definition, no contract: keep and rewind a persistent entity, drop any other; characterised by RestartedMembership |
| SimStore.Restarted | src/App/Simulation/Store.ts:112-120 | definition, no contract: the mapMaybe of restart; characterised by RestartedMembership, RestartedConcat, RestartedIdempotent and RestartedKeepsUniqueIds |
| SimStore.RestartedMembership | src/App/Simulation/Store.ts:111-120 | after restart the list holds exactly the persistent entities, each rewound to its starting position and velocity |
| SimStore.RestartedConcat | src/App/Simulation/Store.ts:111-120 | restart keeps the relative order of the entities it keeps |
| SimStore.RestartedIdempotent | src/App/Simulation/Store.ts:111-120 | restarting twice equals restarting once |
| SimStore.RestartedKeepsUniqueIds | src/App/Simulation/Store.ts:111-120 | restart keeps ids unique |
| SimStore.SimulationStore.Restart | src/App/Simulation/Store.ts:111-122 | entities become the restarted list and traces become empty; systems and context are untouched; unique ids are kept |
| SimStore.ClampDt | src/App/Simulation/Store.ts:92-95 | dt is the minimum of elapsed/1000 and 1/30: at most both, and equal to one of them |
| SimStore.SimulationStore.UpdateTime | src/App/Simulation/Store.ts:90-97 | dt becomes the clamped delta from the old frame start, so dt <= 1/30; the frame start becomes the given time; nothing else changes |
| SimStore.SimulationStore.RecordSpacePressed | src/App/Simulation/Store.ts:82-84 | the boost timestamp is set to the clock only for a non-repeat space key; otherwise nothing changes |
| SimStore.SimulationStore.RecordSpaceReleased | src/App/Simulation/Store.ts:86-88 | the boost timestamp is cleared only for the space key |
| SimStore.SimulationStore.SetCanvasAndContext | src/App/Simulation/Store.ts:99-101 | the canvas becomes present; nothing else changes |
| SimStore.SimulationStore.Pause | src/App/Simulation/Store.ts:103-105 | running becomes absent; nothing else changes |
| SimStore.SimulationStore.Run | src/App/Simulation/Store.ts:107-109 | running becomes present; nothing else changes |
| SimStore.SimulationStore.constructor | src/App/Simulation/Store.ts:19-20 | the store starts with makeState's empty state, and ids are trivially unique |
| SimStore.MinFold | src/App/Simulation/Store.ts:136-141 | the min fold is at most its start and at most every positioned coordinate, and is its start or one of them |
| SimStore.MaxFold | src/App/Simulation/Store.ts:143-148 | the max fold is at least its start and every positioned coordinate, and is its start or one of them |
| SimStore.MinFromPosInf | src/App/Simulation/Store.ts:136-141 | starting from +infinity the fold is the least positioned coordinate, or +infinity when no entity has a position |
| SimStore.MaxFromNegInf | src/App/Simulation/Store.ts:143-148 | starting from -infinity the fold is the greatest positioned coordinate, or -infinity when no entity has a position |
| SimStore.SimulationStore.MinEntityX | src/App/Simulation/Store.ts:136-141 | bounds every positioned x from below and equals one of them; +infinity when none is positioned |
| SimStore.SimulationStore.MaxEntityX | src/App/Simulation/Store.ts:143-148 | bounds every positioned x from above and equals one of them; -infinity when none is positioned |
| SimStore.SimulationStore.MaxEntityY | src/App/Simulation/Store.ts:150-155 | bounds every positioned y from above and equals one of them; -infinity when none is positioned |
| SimStore.SimulationStore.MinEntityY | src/App/Simulation/Store.ts:157-162 | bounds every positioned y from below and equals one of them; +infinity when none is positioned |
| SimStore.SimulationStore.MinViewY | src/App/Simulation/Store.ts:172-174 | the bottom of the view is always 0 |
| SimTypes.MakeCircleShape | src/App/Simulation/Types.ts:45-48 | circleShape(r) has kind 'circle-shape' and radius r |
| SimTypes.WithInternals | src/App/Simulation/Types.ts:80-84 | the entity (id and every component) is unchanged; starting position and velocity equal its position and velocity |
| SimTypes.RewindFresh | src/App/Simulation/Types.ts:80-84 | rewinding a freshly added entity changes nothing; rewinding is idempotent and keeps the id |
| SimTypes.MakeContextVars | src/App/Simulation/Types.ts:94-100 | dt starts at 0.001; no canvas; not running; frameStartAt is the supplied clock value |
| SimTypes.MakeState | src/App/Simulation/Types.ts:114-119 | empty entities, traces and systems, with makeContextVars' context |
| LineWeight.Pow | src/SimRender/index.ts:18 | a power of a positive base is at least 1 |
| LineWeight.PowMonotone | src/SimRender/index.ts:17-18 | for a positive base, a larger exponent gives a power at least as large |
| LineWeight.JsRem | src/SimRender/index.ts:17 | the truncating remainder takes the dividend's sign and is zero exactly when the magnitude is divisible |
| LineWeight.FiveExponent | src/SimRender/index.ts:16-17 | definition, no contract: the exponent of 5 in a positive number; characterised by FiveExponentUnique and FiveExponentDivides |
| LineWeight.Weight | src/SimRender/index.ts:13-19 | definition, no contract: the weight rule; characterised by FiveExponentUnique, WeightIsPowerOfThree and WeightExamples |
| LineWeight.FiveExponentUnique | src/SimRender/index.ts:16-17 | 5^k divides n and 5^(k+1) does not, exactly when k is the exponent of 5 in n |
| LineWeight.FiveExponentDivides | src/SimRender/index.ts:16-17 | 5^v divides n and 5^(v+1) does not, where v is the exponent of 5 in n |
| LineWeight.WeightIsPowerOfThree | src/SimRender/index.ts:18 | every weight is 3^k for some k >= 0, hence at least 1 (width at least 0.005) |
| LineWeight.WeightSymmetric | src/SimRender/index.ts:17 | the weight at -i equals the weight at i |
| LineWeight.WeightExamples | src/SimRender/index.ts:16-18 | a non-multiple of 5 has weight 1; a multiple of 25 but not of 125 has weight 9 |
| LineWeight.WeightTimesFive | src/App.tsx:122-123 | each further factor of 5 multiplies the weight by 3 |
| LineWeight.ZeroHeaviestNearOrigin | src/SimRender/index.ts:14 | zero's weight 3^3 is the heaviest for -625 < i < 625, but the line at 625 is heavier |
| SimRender.CalcLineWidth | src/SimRender/index.ts:13-19 | the while loop terminates, and the result is 27 at zero and 3^(exponent of 5 in i) otherwise |
| App.CalcLineWidth | src/App.tsx:118-124 | the for loop terminates with the same result, so this copy agrees with the renderer's on every integer |
| ClickToShow.Toggled | src/App/ClickToShow/Store.ts:16-27 | toggling always changes the state |
| ClickToShow.ToggleLaws | src/App/ClickToShow/Store.ts:16-27 | hidden becomes showing, showing becomes hidden, and toggling twice restores the state |
| ClickToShow.ShowStore.constructor | src/App/ClickToShow/Store.ts:8-9 | a new store starts hidden |
| ClickToShow.ShowStore.Toggle | src/App/ClickToShow/Store.ts:16-27 | the state becomes its toggle; the `assertNever` default branch is proved unreachable |
| ThemeTypes.ThemeOptions | src/App/ThemeStore/Types.ts:15-25 | constant, no contract: the option table; characterised by ThemeOptionsDistinct |
| ThemeTypes.ThemeOptionsDistinct | src/App/ThemeStore/Types.ts:15-25 | the table has nine entries with distinct names |
| ThemeTypes.MakeState | src/App/ThemeStore/Types.ts:43-47 | the initial state is the first dark option 'Default Dark' with the full table, and previousName equals name |
| ThemeStore.Find | src/App/ThemeStore/index.ts:21 | a found option is in the table under that name; nothing is found exactly when no entry has the name |
| ThemeStore.FindEntry | src/App/ThemeStore/index.ts:21 | with distinct names, looking up an entry's name finds exactly that entry |
| ThemeStore.Selected | src/App/ThemeStore/index.ts:20-25 | definition, no contract: the state after setTheme; characterised by SelectedEffect and RevertSwaps |
| ThemeStore.InitialValid | src/App/ThemeStore/Types.ts:43-47 | the initial state satisfies the invariant: name and previousName are table entries and theme belongs to name |
| ThemeStore.SelectedEffect | src/App/ThemeStore/index.ts:20-25 | setTheme with a known name takes that option's name and theme and remembers the old name; with an unknown name it changes nothing; it never changes the table or dark; it keeps the invariant |
| ThemeStore.RevertSwaps | src/App/ThemeStore/index.ts:27-29 | revert swaps name and previousName, and two reverts restore the whole state |
| ThemeStore.RevertAfterSelect | src/App/ThemeStore/index.ts:20-29 | revert right after setTheme of a table name brings the name back |
| ThemeStore.ThemeStore.constructor | src/App/ThemeStore/index.ts:9-10 | the store starts in makeState's state, which satisfies the invariant |
| ThemeStore.ThemeStore.SetTheme | src/App/ThemeStore/index.ts:20-25 | the state becomes the selection of that name and the invariant is kept |
| ThemeStore.ThemeStore.Revert | src/App/ThemeStore/index.ts:27-29 | the state becomes the selection of the previous name; under the invariant, name and previousName are swapped |
| ThemeStore.ThemeStore.Theme | src/App/ThemeStore/index.ts:31-33 | the theme getter returns the theme of the current name's table entry |
| ThemeStore.ThemeStore.Options | src/App/ThemeStore/index.ts:35-37 | the options getter always returns the full table |

## Left out

- Physics (`src/Physics/index.ts`, `calcNewPosVel` in `src/App.tsx`, `src/Vector/index.ts`): IEEE floating-point numerics (`sqrt`, `exp`, π, NaN guards) that exact reals cannot reproduce.
- The scale and view getters of the store (`heightScale`, `widthScale`, `scale`, `sideMarginPx`, `minViewX`, `maxViewX`, `maxViewY`): logistic `exp`, float division and canvas pixel sizes.
- `runSystems`: systems are arbitrary closures over the whole mutable store. Systems are kept only as opaque handles.
- The `entities` and `contextVars` getters: direct reads of `state`.
- Float behaviour generally: rounding, NaN and ±0 are not modelled. Numbers are exact reals. An id is an integer.
- `SimRender.CalcLineWidth` and `App.CalcLineWidth` return the integer weight, not the float width `0.005 · weight`. They assume an integer argument below 2^53: for larger magnitudes, `5 ** eTry` is no longer exact in floating point.
- `SimStore.SimulationStore.WithEntities`: the callback gives back an `Entity`, so an extra `startingPosition` or `startingVelocity` field on a returned object (which JavaScript's spread would copy) is not modelled.
- `SimStore.SimulationStore.WithEntities`: the callback is taken as effect-free (a pure total function). In the source, a callback may change the store during the map: an `addTrace` inside it changes `traces`, and an `addEntity` inside it is lost when line 71 assigns the mapped old array. Such callbacks are not modelled, and "nothing else changes" is promised only for effect-free callbacks.
- `SimStore.SimulationStore.UpdateTime`, `RecordSpacePressed`, `RecordSpaceReleased`, `SetCanvasAndContext`, `Pause` and `Run` update the fields of the `contextVars` object in place. The model replaces a `ContextVars` value, so other holders of the object returned by the `contextVars` getter, which see those updates in the source, are not modelled.
- `SimStore.SimulationStore.AddTrace`: `push` mutates the traces array in place. The model reassigns the sequence, so aliases of that array are not modelled.
- `SimStore.UniqueIds` is kept by every entity operation except `withEntities` with a callback that changes ids. The source allows that callback too.
- `rectangleAppearance` and `groundAppearance` in `Types.ts`: unused shape constructors. The second one holds a function.
- Rendering, canvas, React components, styling and mobx annotations: UI and I/O.
- Event-listener wiring in `CreateStore.ts` and random initial entities: I/O and randomness.
- `src/AssertNever/index.ts`: it is reached only in the default branch that `ClickToShow.ShowStore.Toggle` proves unreachable.
- `src/MaybeHelpers/index.ts`: a one-line wrapper.
- Inconsistencies in the source: `FillStyle` colours passed as hex strings by `CreateStore.ts`, and theme imports that `stitches.config.ts` does not define. Fill styles follow the declared union; themes are opaque.
- `SimTypes.Components`: every component is a present `Option`. The two `addEntity` calls in `CreateStore.ts:12-29` pass only seven components and leave out `trackPosition`, `name` and `persistent`, which `Omit<Entity, 'id'>` requires. Those entities hold `undefined` in the three fields, so `restart`'s `e.persistent.map` (`Store.ts:114`) would throw a TypeError on them. The model does not represent such entities or that failure.
