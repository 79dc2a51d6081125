# Teraflop core, modelled in Dafny

Teraflop is a WebGPU game engine for Deno. This project models three parts
of it and proves properties of the model:

- **The entity-component store** (`ecs/mod.ts`), module `Ecs`:
  - the module-level id counter that every World draws from;
  - `spawn`, `tag`, `hasTag` and `tags`;
  - the singleton resource registry (`Resources.set` / `get`);
  - the queries: `Filter.by`, `ComponentOf`, `query(...)` (the conjunction) and `Query.map`;
  - `ComponentOf.components`.
- **Stack-trace trimming and interning** (`debugger/stacktrace.ts`), module `Stacktrace`:
  - `getStacktrace`, which splits the captured stack into lines, keeps each line's text between its first and second `"at "` (or the line's end), drops the first two lines and the missing or empty segments, and joins the rest;
  - `StacktraceCache`, which stores each distinct trace once and hands out its index as the trace's id.
- **The game loop** (`mod.ts`), module `Engine`:
  - `Game.add`, `time`, `tick` and `update`;
  - `initializeResources`;
  - the pipeline-cache and draw-encoding step of `render`;
  - the `ValidationError` message and the `abortOnInstantiation` flag.

Two supporting modules hold shared material:

- `Collections`: `Option`, and JavaScript's `filter`, `some` and `flatMap` with their laws.
- `Objects`: the classes the core uses but does not define:
  - the GPU resources (`Mesh`, `Material`, `Shader`, `Texture`, `Pipeline`), with the fields their constructors take; only some of these fields are read by the modelled operations, and the rest matter only through the material hash;
  - `Tick`;
  - the resource values.

## How the model is built

- **Id counter.** The module-level `lastId` becomes the class `Ecs.IdCounter`, which is passed to the `World` constructor (and to the `Engine.Game` constructor). Any counter can be passed. So ids are unique across Worlds only when those Worlds share one `IdCounter`, as the single variable in the source forces. `Ecs.SharedCounterScenario` shows two Worlds on one counter drawing ids 0, 1, 2.
- **Entity table.** The `Map<number, Component[]>` is an insertion-ordered `seq<Entity>`, because the ids `spawn` hands out are always fresh. `Ecs.EntityMap` gives the map view.
- **Queries.** A query is the datatype `Ecs.Query`, whose meaning is `Ecs.Match`. `Query.entities` is a filter of the table in insertion order.
- **Classes.** `instanceof` and `nameof` become the exact runtime class `Objects.ClassOf` / `Objects.KeyOf`.
- **Effects as traces.** The effects of `update` that the engine cannot see are recorded in `Engine.Game.trace`, in the order they are made. These are `pollEvents()`, `resource.initialize(...)` and `system.run()`. `Engine.UpdateEvents` is the specification of one `update`.
- **Render.** The render pass becomes the command list it encodes (`Engine.Command`), plus the list of pipeline keys it had to build. `Engine.RenderFrame` is its specification.
- **Material hash.** `material.hash` (a SHA-1 of the object) is a parameter of the `Game`, `hashOf`.
- **Shared cache instance.** The static `StacktraceCache._global` singleton becomes the `global` parameter of `Stacktrace.StacktraceCache.GlobalGetStacktrace` and `GlobalSetStacktrace`. Any instance can be passed, so the model does not enforce that only one exists.
- **Definitions without a row.** Some functions model source code directly but carry no contract of their own. Their meaning is fixed by the lemmas in the table:
  - `Stacktrace.GetStacktrace` is `getStacktrace` (debugger/stacktrace.ts:1-13);
  - `Stacktrace.SecondSegment` is `line.split("at ")[1]` (line 8);
  - `Ecs.Match` is the `match` methods (ecs/mod.ts:113-115, 123-125, 146-148);
  - `Ecs.Map` and `Ecs.MapMapped` are `Query.map` with `composeQuery` (ecs/mod.ts:71-100);
  - `Engine.DrawStep` is one render callback (mod.ts:200-238);
  - `Engine.NewPipeline` is the `new Pipeline(...)` built on a cache miss (mod.ts:206-219);
  - `Engine.DrawnKeys` is the set of drawn material hashes. `Engine.DrawnKeysCover` and `Engine.DrawnKeyOwner` prove that this set is exactly the pipeline keys of the drawn entities.
- **Behaviour kept as written.** The model follows the code even where it is evidently not what was meant. The Findings table records two such places:
  - `World.tag` has its two branches the wrong way round, and `Ecs.World.Tag` keeps that;
  - `line.split("at ")[1]` cuts a frame at any `"at "` inside it, and `Stacktrace.SecondSegment` keeps that.

## Model

| member | source | states |
|---|---|---|
| Ecs.IdCounter.constructor | ecs/mod.ts:5 | the shared counter starts at -1 |
| Ecs.World.Spawn | ecs/mod.ts:27-31 | the id is the counter plus one and the counter advances to it; the entity is appended with exactly the given components; the id is larger than every earlier id, so the map view gains exactly that key |
| Ecs.SharedCounterScenario | ecs/mod.ts:27-31 | spawning into two Worlds that share the module-level `lastId` counter yields ids 0, 1, 2 |
| Ecs.EntityMapLookup | ecs/mod.ts:9 | with increasing ids, every entry of the table is found in the map view under its id with its components |
| Ecs.World.Tag | ecs/mod.ts:12-15 | as written: an entity without a tag list is left untagged; an entity with one gets its list replaced by `[label]` |
| Ecs.TagAsWrittenKeepsEmptyTable | ecs/mod.ts:12-15 | as written, any sequence of `tag` calls on a World without tags leaves the table empty, so `hasTag` never holds |
| Ecs.TagIntendedAddsLabel | ecs/mod.ts:12-15 | the corrected `tag` adds the label, keeps the earlier labels and changes no other entity's tags |
| Ecs.World.HasTag | ecs/mod.ts:17-20 | true exactly when the entity has a tag list that contains the label |
| Ecs.World.Tags | ecs/mod.ts:22-25 | the entity's tag list, or empty when it has none |
| Ecs.Resources.Set | ecs/mod.ts:41-47 | returns the value; the value replaces whatever its class held; every other class reads as before |
| Ecs.Resources.Get | ecs/mod.ts:50-54 | `None` exactly when nothing is registered for the class; otherwise the registered value, whose class is the one asked for |
| Ecs.ResourceReplaceScenario | ecs/mod.ts:41-54 | two sets of one class: `get` reads the later value, and an unset class reads as `None` |
| Ecs.FilterBy | ecs/mod.ts:109-115 | an entity matches exactly when one of its components satisfies the predicate |
| Ecs.ComponentOfMatches | ecs/mod.ts:123-125 | an entity matches exactly when one of its components is an instance of the class |
| Ecs.QueryOf | ecs/mod.ts:146-154 | an entity matches exactly when it matches every sub-query |
| Ecs.Entities | ecs/mod.ts:87-91 | an entity is returned exactly when it is in the table and matches |
| Ecs.EntitiesInOrder | ecs/mod.ts:87-91 | the result is an ordered subsequence of the table |
| Ecs.EntitiesAscending | ecs/mod.ts:87-91 | the result keeps the table's ascending id order |
| Ecs.EmptyQueryMatchesAll | ecs/mod.ts:146-154 | `query()` returns the whole table |
| Ecs.ConjunctionIsIntersection | ecs/mod.ts:146-148 | `query(q1, q2)` returns the first query's result filtered by the second, that is, the entities both return |
| Ecs.MappedQueryAgrees | ecs/mod.ts:71-100 | a mapped query matches what its query matches; its result has the same length and holds the callback of each entity, its index and the array |
| Ecs.MappedTwiceAgrees | ecs/mod.ts:71-100 | mapping a mapped query keeps its `match` and maps its result once more |
| Ecs.InstancesInMembers | ecs/mod.ts:128-138 | the collected components are exactly the instances of the class held by the given entities |
| Ecs.MatchedInstances | ecs/mod.ts:128-138 | collecting over the `ComponentOf` matches yields exactly the instances of the class held anywhere in the table |
| Ecs.Components | ecs/mod.ts:128-138 | the loop's result is each matching entity's instances, concatenated in order, and contains exactly the table's instances of the class |
| Stacktrace.JoinSplit | debugger/stacktrace.ts:6-12 | joining the pieces of a split with the same separator gives back the string |
| Stacktrace.SplitJoinChar | debugger/stacktrace.ts:6-12 | splitting a newline-join of parts that contain no newline gives back the parts |
| Stacktrace.SecondSegmentBetween | debugger/stacktrace.ts:8 | `line.split("at ")[1]` is missing exactly when the line has no `"at "`; otherwise it is the text between the first and the next `"at "` (or the line's end) |
| Stacktrace.Kept | debugger/stacktrace.ts:10 | the kept strings are exactly the present, non-empty segments, and never more than the segments |
| Stacktrace.KeptAppend | debugger/stacktrace.ts:10 | filtering a concatenation gives the concatenation of the filtered parts, so order and repeats are kept |
| Stacktrace.KeptSnoc | debugger/stacktrace.ts:10 | one more segment adds its value at the end exactly when the value is present and non-empty |
| Stacktrace.SegmentsDrop | debugger/stacktrace.ts:8-9 | dropping lines before or after the per-line `map` gives the same segments |
| Stacktrace.LineFramesAppend | debugger/stacktrace.ts:6-10 | the frames of consecutive blocks of lines follow each other |
| Stacktrace.KeptSegments | debugger/stacktrace.ts:8-10 | mapping every line to its segment and then filtering gives the line-by-line frames |
| Stacktrace.FramesInOrder | debugger/stacktrace.ts:6-10 | the kept frames are, in order and with repeats, the line-by-line frames of the lines after the first two; there are none with fewer than three lines |
| Stacktrace.LineFramesMembers | debugger/stacktrace.ts:8-10 | a string is a frame of some lines exactly when it is the non-empty segment of one of them |
| Stacktrace.FramesFromLines | debugger/stacktrace.ts:6-10 | a frame is kept exactly when it is the non-empty segment of some line after the first two |
| Stacktrace.FramesWellFormed | debugger/stacktrace.ts:6-10 | every kept frame is non-empty and contains neither a newline nor `"at "` |
| Stacktrace.StacktraceLines | debugger/stacktrace.ts:1-13 | the result is `""` without `captureStackTrace` or with an empty stack; otherwise it is `""` exactly when no frame is kept, and splitting it on newlines gives back the kept frames in order |
| Stacktrace.SecondSegmentCutsFrame | debugger/stacktrace.ts:8 | as written, on an indented line whose frame text contains `"at "`, the kept segment is not the frame |
| Stacktrace.AfterFirstAt | debugger/stacktrace.ts:8 | the corrected reading: missing exactly when the line has no `"at "`; otherwise everything after its first `"at "` |
| Stacktrace.AfterFirstAtKeepsFrame | debugger/stacktrace.ts:8 | the corrected reading keeps the whole frame of an indented line, whatever the frame contains |
| Stacktrace.IndexOf | debugger/stacktrace.ts:28 | -1 exactly when the trace is absent; otherwise the first index holding it |
| Stacktrace.StacktraceCache.GetStacktrace | debugger/stacktrace.ts:22-24 | the stored trace for an id that names an entry, and `""` for a negative or too-large id |
| Stacktrace.StacktraceCache.SetStacktrace | debugger/stacktrace.ts:26-32 | -1 and no change for the empty trace; the existing id for a known trace; a new trace is appended and gets the next index; `GetStacktrace` of the id then gives back the trace; entries never move and none repeats |
| Stacktrace.StacktraceCache.GlobalGetStacktrace | debugger/stacktrace.ts:34-36 | the static getter answers as the shared instance's `_getStacktrace` |
| Stacktrace.StacktraceCache.GlobalSetStacktrace | debugger/stacktrace.ts:38-40 | the static setter interns into the shared instance, as `_setStacktrace` does |
| Engine.Game.Add | mod.ts:88-90 | the system is registered after the existing ones |
| Engine.Game.Time | mod.ts:74-76 | the stored `Tick` resource, or `Tick.zero(1/60)` when none is stored |
| Engine.Game.Tick | mod.ts:144-147 | the tick becomes the stored `Tick` resource, so `time` returns it; then exactly one `update`'s events are appended |
| Engine.PendingResources | mod.ts:158-159 | a component is pending exactly when it is a resource whose `initialized` flag is false |
| Engine.Game.InitializeResources | mod.ts:157-161 | one `initialize` call per pending resource of the entity, in component order |
| Engine.Game.Update | mod.ts:163-174 | appends `pollEvents`, then the initializations for each entity holding a resource, in table order, then one run per system in registration order |
| Engine.UpdateRunsSystemsInOrder | mod.ts:173 | the systems an `update` runs are exactly the registered systems, in order |
| Engine.UpdateInitializesBeforeSystems | mod.ts:168-173 | events are polled first, and no initialization follows a system run |
| Engine.UpdateInitializesPendingResources | mod.ts:157-171 | `update` initializes a component for an entity exactly when the entity holds it and it is an uninitialized resource |
| Engine.FirstOfClass | mod.ts:200-201 | the index `find` stops at: the first component of the class, or -1 when none is |
| Engine.RenderQueryMatchesDrawable | mod.ts:199 | the render query matches exactly the entities with a mesh and a material |
| Engine.DrawnEntities | mod.ts:199 | the drawn entities are exactly the table's entities with a mesh and a material |
| Engine.RenderFrameCache | mod.ts:203-223 | the cache only grows, its old entries unchanged, and ends up holding the old keys plus the material hash of every drawn entity |
| Engine.RenderFrameBuildsNewKeys | mod.ts:205-222 | a pipeline is built for a key exactly when a drawn entity's material hashes to it and the cache lacked it |
| Engine.RenderFrameCommands | mod.ts:223-238 | every drawn entity is encoded in order with the cached pipeline for its material's hash |
| Engine.DrawCommandsOrder | mod.ts:234-238 | one entity's commands are `setPipeline`, `setVertexBuffer(0, …)`, `setIndexBuffer(…, "uint32")` exactly when the mesh is indexed, and a single final `draw` of its vertex count |
| Engine.RenderFrameDrawsEach | mod.ts:199-238 | a frame encodes exactly one draw per drawn entity |
| Engine.RenderFrameAllCached | mod.ts:205-223 | when every key is cached, nothing is built and the cache is unchanged |
| Engine.NextFrameReusesPipelines | mod.ts:203-223 | drawing the same entities again reuses the first frame's cache: no pipeline is built, and the commands repeat |
| Engine.TriangleFrame | examples/triangle.ts:32-38 | the triangle example's entity, drawn with an empty cache, builds one pipeline and encodes `setPipeline`, `setVertexBuffer` and `draw(3)`, with no index buffer |
| Engine.Game.DrawEntity | mod.ts:200-238 | one iteration of the render loop over entities, as specified by `DrawStep`; every cached value stays a pipeline under its own key |
| Engine.Game.Render | mod.ts:199-241 | the cache, the commands and the built keys are those of `RenderFrame` over the drawn entities, from the old cache |
| Engine.ValidationMessage | mod.ts:276-278 | `"Validation Error: "`, then `"<source>: "` when a source is given, then the message (`undefined` when none is given) |
| Engine.ValidationSettings.constructor | mod.ts:288-291 | nothing is stored at first, so the flag reads false |
| Engine.ValidationSettings.AbortOnInstantiation | mod.ts:288-291 | true exactly when `true` was stored |
| Engine.ValidationSettings.SetAbortOnInstantiation | mod.ts:293-296 | the stored value is the new one, so the getter returns it |
| Engine.ValidationSettings.NewValidationError | mod.ts:276-284 | the error carries the built message; an exit is scheduled exactly when the flag is set |

## Left out

- GPU plumbing is not modelled: adapter and device acquisition, surfaces, windows, the clear pass, `queue.submit`, `present` and error scopes. A `Command` records a call made on a render-pass encoder. The model does not say which encoded passes reach `queue.submit`.
- Engine.Game.Render: the source starts one `async` callback per entity under `Promise.all`. Two rules about those callbacks are not modelled.
  - A callback suspends between the cache check and the cache assignment. So two entities whose materials share a hash that is new in the frame can both build a pipeline.
  - Command buffers join the list in completion order.

  The model processes entities one at a time, in table order. Its "built exactly the new keys" property holds for that sequential order only.
- Engine.Game.Update: `initializeResources` is fire-and-forget. The model records the order in which the `initialize` calls are started, not when they complete. It therefore does not claim that a resource is initialized at most once across frames. That would depend on `Resource.initialize` setting `initialized`, and the definitions of `Mesh`, `Material`, `Pipeline` and `isResource` in graphics/mod.ts are not part of this model.
- Engine.Game.DrawEntity: the model stops after the `draw` call at mod.ts:238. The next line, mod.ts:239, calls `this.world.entityId(entity)`, and `World` does not define `entityId` (ecs/mod.ts:7-32). By the text, that call throws a `TypeError` in every render callback. So `passEncoder.end()` and `commandBuffers.push(...)` at mod.ts:240-241 are never reached. The `.catch` at mod.ts:242-246 rethrows only an `OperationError`, so the `TypeError` is dropped without a trace. The model does not capture this: its commands are the encoder calls up to `draw`, and it says nothing about the submitted command buffers.
- Engine.Game.Render: `queue.submit(commandBuffers)` at mod.ts:250 runs synchronously, right after `Promise.all` is started. A callback that awaits `pipeline.initialize` at mod.ts:220 could only push its buffer after the submit. The model does not capture submission order or timing.
- Engine.NewPipeline: the blend state and surface format are GPU details and are left out. The pipeline's `initialize` is taken to succeed.
- Engine.Game.Time: a stored `Tick` resource whose value is not a `Tick` cannot arise in the model, because the registry is keyed by class.
- Engine.ValidationSettings.NewValidationError: the model does not cover what the scheduled exit does. That is printing the message and `options.details`, the `delay(0)` and `Deno.exit(1)`. It also leaves out `options.cause`.
- Ecs.ComponentOfMatches: `instanceof` is modelled as an exact class comparison. Subclasses of a component class are not modelled.
- Ecs.Resources.Set: `nameof` is modelled as the class itself. Two distinct classes with the same name, which would collide in the source, are not modelled. Primitive values, keyed by `typeof`, are not modelled either.
- Ecs.World.Spawn: the counter is a parameter, not a single module-level variable. Two Worlds built with different `IdCounter` objects can both hand out id 0, which the source cannot do. Ids are unique across Worlds only when every World shares one counter.
- Ecs.World.Spawn: ids are unbounded integers. The float precision of JavaScript numbers is not modelled.
- Stacktrace.StacktraceLines: `Error.captureStackTrace` is foreign. Whether it exists, and the stack text it produces, are inputs.
- Stacktrace.StacktraceCache.GetStacktrace: non-integer ids are not modelled.
- Engine.Game.Tick: the fields of `Tick` (timestep, elapsed time, frame) are only stand-ins. The render-loop package that defines it is not part of this model.
- Not modelled at all: the `Color` palette, the debugger's server and UI, input handling, platform FFI, `run`'s event listeners, the entry points and `utils.ts`.

## Findings

| source | as written | input that shows it | evidently intended | confidence | as-written member | corrected member |
|---|---|---|---|---|---|---|
| ecs/mod.ts:12-15 | `tag` checks `!has(id)` and then pushes onto the missing list, which does nothing; an entity that already has tags gets its list replaced by `[label]` | a new World: `tag(e, "player")` and then `hasTag(e, "player")` gives false, and no sequence of `tag` calls ever creates a tag list | create `[label]` for an untagged entity, and append the label to an existing list | not executed | Ecs.TagAsWrittenKeepsEmptyTable | Ecs.TagIntendedAddsLabel |
| debugger/stacktrace.ts:8 | each line is split on every `"at "`, and only piece 1 is kept | the line `    at Object.format (f.ts:1:1)` keeps `Object.form`, because `format (` contains `"at "`; any frame text containing `"at "`, such as `Array.concat`, is cut the same way | keep everything after the first `"at "` of the line | not executed | Stacktrace.SecondSegmentCutsFrame | Stacktrace.AfterFirstAtKeepsFrame |
