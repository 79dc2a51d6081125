/** The frame bookkeeping of the engine's `Game` class and its
    `ValidationError` (mod.ts). GPU work and the systems' own `run` bodies
    are recorded, in order, instead of being performed. */
module Engine {
  import opened Collections
  import opened Objects
  import opened Ecs

  /** A registered system; what its `run` does is application code. */
  datatype System = System(id: nat)

  /** What one `update` does, in order. */
  datatype Event =
    | PollEvents
    | InitializeResource(entity: int, resource: Component)  // `resource.initialize(adapter, device)`
    | RunSystem(system: System)

  /** The render-pass commands encoded for one drawn entity. */
  datatype Command =
    | SetPipeline(pipeline: Component)
    | SetVertexBuffer(slot: nat, mesh: Component)
    | SetIndexBuffer(mesh: Component, format: string)
    | Draw(vertexCount: nat)

  // -------------------------------------------------------------- update

  /** A GPU resource still waiting for its `initialize` call. */
  predicate IsPending(c: Component) {
    IsResource(c) && !c.initialized
  }

  /** The resource components of an entity whose `initialized` flag is false. */
  function PendingResources(components: seq<Component>): (r: seq<Component>)
    ensures forall c :: c in r <==> c in components && IsResource(c) && !c.initialized
  {
    FilterFilter(components, IsResource, IsPending, IsPending);
    Filter(Filter(components, IsResource), IsPending)
  }

  /** One `initialize` call per resource of `pending`, on behalf of entity `id`. */
  function CallsFor(id: int, pending: seq<Component>): (r: seq<Event>)
    ensures |r| == |pending|
    decreases |pending|
  {
    if pending == [] then []
    else CallsFor(id, pending[..|pending| - 1]) + [InitializeResource(id, pending[|pending| - 1])]
  }

  lemma {:induction false} CallsForElements(id: int, pending: seq<Component>)
    ensures forall k :: 0 <= k < |pending| ==> CallsFor(id, pending)[k] == InitializeResource(id, pending[k])
    decreases |pending|
  {
    if pending != [] {
      var n := |pending| - 1;
      CallsForElements(id, pending[..n]);
    }
  }

  /** The `initialize` calls `initializeResources` makes for entity `e`, in order. */
  function InitializeCalls(e: Entity): seq<Event> {
    CallsFor(e.id, PendingResources(e.components))
  }

  /** The initialization events for the entities `es`, entity by entity. */
  function InitEvents(es: seq<Entity>): seq<Event> {
    FlatMap(es, InitializeCalls)
  }

  lemma InitEventsSnoc(es: seq<Entity>, i: nat)
    requires i < |es|
    ensures InitEvents(es[..i + 1]) == InitEvents(es[..i]) + InitializeCalls(es[i])
  {
    assert es[..i + 1][..i] == es[..i];
  }

  /** One `run` per system, in order. */
  function RunEvents(systems: seq<System>): (r: seq<Event>)
    ensures |r| == |systems|
    decreases |systems|
  {
    if systems == [] then []
    else RunEvents(systems[..|systems| - 1]) + [RunSystem(systems[|systems| - 1])]
  }

  lemma {:induction false} RunEventsElements(systems: seq<System>)
    ensures forall k :: 0 <= k < |systems| ==> RunEvents(systems)[k] == RunSystem(systems[k])
    decreases |systems|
  {
    if systems != [] {
      var n := |systems| - 1;
      RunEventsElements(systems[..n]);
    }
  }

  /** `Filter.by(isResource).entities(world)`. */
  function ResourceHolders(entries: seq<Entity>): seq<Entity> {
    Entities(FilterBy(IsResource), entries)
  }

  /** The events of one `update` over the entity table `entries`. */
  function UpdateEvents(entries: seq<Entity>, systems: seq<System>): seq<Event> {
    [PollEvents] + InitEvents(ResourceHolders(entries)) + RunEvents(systems)
  }

  /** The systems that a sequence of events runs, in order. */
  function SystemsRun(events: seq<Event>): seq<System>
    decreases |events|
  {
    if events == [] then []
    else (if events[0].RunSystem? then [events[0].system] else []) + SystemsRun(events[1..])
  }

  lemma {:induction false} SystemsRunAppend(a: seq<Event>, b: seq<Event>)
    ensures SystemsRun(a + b) == SystemsRun(a) + SystemsRun(b)
    decreases |a|
  {
    if a == [] {
      assert a + b == b;
    } else {
      assert (a + b)[1..] == a[1..] + b;
      SystemsRunAppend(a[1..], b);
    }
  }

  lemma {:induction false} InitEventsAreInitializations(es: seq<Entity>)
    ensures forall k :: 0 <= k < |InitEvents(es)| ==> InitEvents(es)[k].InitializeResource?
    decreases |es|
  {
    if es != [] {
      var n := |es| - 1;
      InitEventsAreInitializations(es[..n]);
      CallsForElements(es[n].id, PendingResources(es[n].components));
      assert InitEvents(es) == InitEvents(es[..n]) + InitializeCalls(es[n]);
    }
  }

  lemma {:induction false} NoSystemsRunIn(events: seq<Event>)
    requires forall k :: 0 <= k < |events| ==> !events[k].RunSystem?
    ensures SystemsRun(events) == []
    decreases |events|
  {
    if events != [] {
      NoSystemsRunIn(events[1..]);
    }
  }

  lemma {:induction false} SystemsRunOfRunEvents(systems: seq<System>)
    ensures SystemsRun(RunEvents(systems)) == systems
    decreases |systems|
  {
    if systems != [] {
      var n := |systems| - 1;
      SystemsRunOfRunEvents(systems[..n]);
      SystemsRunAppend(RunEvents(systems[..n]), [RunSystem(systems[n])]);
      assert systems[..n] + [systems[n]] == systems;
    }
  }

  /** `update` runs every registered system once, in registration order. */
  lemma UpdateRunsSystemsInOrder(entries: seq<Entity>, systems: seq<System>)
    ensures SystemsRun(UpdateEvents(entries, systems)) == systems
  {
    var init := InitEvents(ResourceHolders(entries));
    InitEventsAreInitializations(ResourceHolders(entries));
    NoSystemsRunIn([PollEvents] + init);
    SystemsRunAppend([PollEvents] + init, RunEvents(systems));
    SystemsRunOfRunEvents(systems);
  }

  /** `update` polls events first, and every resource initialization comes
      before every system run. */
  lemma UpdateInitializesBeforeSystems(entries: seq<Entity>, systems: seq<System>)
    ensures UpdateEvents(entries, systems)[0] == PollEvents
    ensures forall i, j :: 0 <= i < j < |UpdateEvents(entries, systems)| && UpdateEvents(entries, systems)[i].RunSystem? ==>
      UpdateEvents(entries, systems)[j].RunSystem?
  {
    InitEventsAreInitializations(ResourceHolders(entries));
    RunEventsElements(systems);
  }

  /** The initialization events for one entity name exactly its pending resources. */
  lemma InitializeCallsMembers(e: Entity, ev: Event)
    ensures ev in InitializeCalls(e) <==>
      ev.InitializeResource? && ev.entity == e.id && ev.resource in PendingResources(e.components)
  {
    var pending := PendingResources(e.components);
    var calls := InitializeCalls(e);
    CallsForElements(e.id, pending);
    if ev.InitializeResource? && ev.entity == e.id && ev.resource in pending {
      var m :| 0 <= m < |pending| && pending[m] == ev.resource;
      assert calls[m] == ev;
    }
  }

  lemma InitializedOnlyIfPending(entries: seq<Entity>, systems: seq<System>, entity: int, c: Component)
    requires InitializeResource(entity, c) in UpdateEvents(entries, systems)
    ensures IsResource(c) && !c.initialized
    ensures exists k :: 0 <= k < |entries| && entries[k].id == entity && c in entries[k].components
  {
    var holders := ResourceHolders(entries);
    var ev := InitializeResource(entity, c);
    RunEventsElements(systems);
    assert ev in InitEvents(holders);
    FlatMapMembers(holders, InitializeCalls, ev);
    var k :| 0 <= k < |holders| && ev in InitializeCalls(holders[k]);
    InitializeCallsMembers(holders[k], ev);
    assert holders[k] in entries;
    var j :| 0 <= j < |entries| && entries[j] == holders[k];
  }

  lemma PendingIsInitialized(entries: seq<Entity>, systems: seq<System>, k: int, c: Component)
    requires 0 <= k < |entries| && c in entries[k].components
    requires IsResource(c) && !c.initialized
    ensures InitializeResource(entries[k].id, c) in UpdateEvents(entries, systems)
  {
    var holders := ResourceHolders(entries);
    var ev := InitializeResource(entries[k].id, c);
    var m :| 0 <= m < |entries[k].components| && entries[k].components[m] == c;
    assert Match(FilterBy(IsResource), entries[k]);
    assert entries[k] in holders;
    var h :| 0 <= h < |holders| && holders[h] == entries[k];
    InitializeCallsMembers(holders[h], ev);
    FlatMapMembers(holders, InitializeCalls, ev);
    assert ev in InitEvents(holders);
  }

  /** `update` initializes exactly the resource components whose
      `initialized` flag is false, each on behalf of the entity holding it. */
  lemma UpdateInitializesPendingResources(entries: seq<Entity>, systems: seq<System>, entity: int, c: Component)
    ensures InitializeResource(entity, c) in UpdateEvents(entries, systems) <==>
      IsResource(c) && !c.initialized && exists k :: 0 <= k < |entries| && entries[k].id == entity && c in entries[k].components
  {
    if InitializeResource(entity, c) in UpdateEvents(entries, systems) {
      InitializedOnlyIfPending(entries, systems, entity, c);
    }
    if IsResource(c) && !c.initialized && exists k :: 0 <= k < |entries| && entries[k].id == entity && c in entries[k].components {
      var k :| 0 <= k < |entries| && entries[k].id == entity && c in entries[k].components;
      PendingIsInitialized(entries, systems, k, c);
    }
  }

  // -------------------------------------------------------------- render

  /** The index `components.find(c => c instanceof cls)` stops at: the first
      component of class `cls`, or -1 when there is none. */
  function FirstOfClass(cs: seq<Component>, cls: ClassName): (k: int)
    ensures -1 <= k < |cs|
    ensures k == -1 ==> forall j :: 0 <= j < |cs| ==> ClassOf(cs[j]) != cls
    ensures k >= 0 ==> ClassOf(cs[k]) == cls && forall j :: 0 <= j < k ==> ClassOf(cs[j]) != cls
    decreases |cs|
  {
    if cs == [] then -1
    else if ClassOf(cs[0]) == cls then 0
    else
      var k := FirstOfClass(cs[1..], cls);
      assert forall j :: 1 <= j < |cs| ==> cs[j] == cs[1..][j - 1];
      if k == -1 then -1 else k + 1
  }

  /** An entity `render` draws: it has a `Mesh` and a `Material`. */
  predicate Drawable(e: Entity) {
    FirstOfClass(e.components, MeshClass) >= 0 && FirstOfClass(e.components, MaterialClass) >= 0
  }

  predicate AllDrawable(drawn: seq<Entity>) {
    forall k :: 0 <= k < |drawn| ==> Drawable(drawn[k])
  }

  /** `query(new ComponentOf(Mesh), new ComponentOf(Material))`. */
  function RenderQuery(): Query {
    QueryOf([ComponentOf(MeshClass), ComponentOf(MaterialClass)])
  }

  /** Exactly the entities with a mesh and a material match the render query. */
  lemma RenderQueryMatchesDrawable(e: Entity)
    ensures Match(RenderQuery(), e) <==> Drawable(e)
  {
    var q := [ComponentOf(MeshClass), ComponentOf(MaterialClass)];
    assert Match(RenderQuery(), e) <==> Match(q[0], e) && Match(q[1], e);
    ComponentOfMatches(MeshClass, e);
    ComponentOfMatches(MaterialClass, e);
  }

  /** The entities `render` draws, in insertion order: exactly those with a
      mesh and a material. */
  function DrawnEntities(entries: seq<Entity>): (r: seq<Entity>)
    ensures AllDrawable(r)
    ensures forall e :: e in r <==> e in entries && Drawable(e)
  {
    var r := Entities(RenderQuery(), entries);
    forall e
      ensures e in r <==> e in entries && Drawable(e)
    {
      RenderQueryMatchesDrawable(e);
    }
    r
  }

  /** `entity.components.find(c => c instanceof Mesh)`. */
  function MeshOf(e: Entity): (m: Component)
    requires Drawable(e)
    ensures m.Mesh? && m in e.components
  {
    e.components[FirstOfClass(e.components, MeshClass)]
  }

  /** `entity.components.find(c => c instanceof Material)`. */
  function MaterialOf(e: Entity): (m: Component)
    requires Drawable(e)
    ensures m.Material? && m in e.components
  {
    e.components[FirstOfClass(e.components, MaterialClass)]
  }

  /** `material.hash`, the pipeline cache key. */
  function PipelineKey(e: Entity, hashOf: Component -> string): string
    requires Drawable(e)
  {
    hashOf(MaterialOf(e))
  }

  /** The pipeline keys of the entities `drawn`. */
  function DrawnKeys(drawn: seq<Entity>, hashOf: Component -> string): set<string>
    requires AllDrawable(drawn)
    decreases |drawn|
  {
    if drawn == [] then {}
    else DrawnKeys(drawn[..|drawn| - 1], hashOf) + {PipelineKey(drawn[|drawn| - 1], hashOf)}
  }

  /** The pipeline key of every drawn entity is a drawn key. */
  lemma {:induction false} DrawnKeysCover(drawn: seq<Entity>, hashOf: Component -> string)
    requires AllDrawable(drawn)
    ensures forall j :: 0 <= j < |drawn| ==> PipelineKey(drawn[j], hashOf) in DrawnKeys(drawn, hashOf)
    decreases |drawn|
  {
    if drawn != [] {
      var n := |drawn| - 1;
      var init := drawn[..n];
      DrawnKeysCover(init, hashOf);
      forall j | 0 <= j < n
        ensures PipelineKey(drawn[j], hashOf) in DrawnKeys(drawn, hashOf)
      {
        assert drawn[j] == init[j];
      }
    }
  }

  /** Every drawn key is the pipeline key of some drawn entity. */
  lemma {:induction false} DrawnKeyOwner(drawn: seq<Entity>, hashOf: Component -> string, key: string) returns (j: nat)
    requires AllDrawable(drawn)
    requires key in DrawnKeys(drawn, hashOf)
    ensures j < |drawn| && PipelineKey(drawn[j], hashOf) == key
    decreases |drawn|
  {
    var n := |drawn| - 1;
    var init := drawn[..n];
    if key == PipelineKey(drawn[n], hashOf) {
      j := n;
    } else {
      j := DrawnKeyOwner(init, hashOf, key);
      assert drawn[j] == init[j];
    }
  }

  /** The pipeline built for a material on first sight of its hash; the cache
      holds it once its `initialize` has been awaited. */
  function NewPipeline(material: Component, mesh: Component, key: string): Component
    requires mesh.Mesh?
  {
    Pipeline(material, mesh.layout, key, true)
  }

  /** The commands encoded for one mesh drawn with `pipeline`. */
  function DrawCommands(pipeline: Component, mesh: Component): seq<Command>
    requires mesh.Mesh?
  {
    [SetPipeline(pipeline), SetVertexBuffer(0, mesh)]
    + (if IsIndexed(mesh) then [SetIndexBuffer(mesh, "uint32")] else [])
    + [Draw(|mesh.vertices|)]
  }

  /** The pipeline cache, the encoded commands and the keys whose pipeline
      was built, so far in a frame. */
  datatype Progress = Progress(cache: map<string, Component>, commands: seq<Command>, built: seq<string>)

  /** Rendering one entity: look its material's hash up in the cache,
      building the pipeline when the hash is new, then encode its draw. */
  function DrawStep(p: Progress, e: Entity, hashOf: Component -> string): Progress
    requires Drawable(e)
  {
    var key := PipelineKey(e, hashOf);
    var cache := if key in p.cache then p.cache else p.cache[key := NewPipeline(MaterialOf(e), MeshOf(e), key)];
    var built := if key in p.cache then p.built else p.built + [key];
    Progress(cache, p.commands + DrawCommands(cache[key], MeshOf(e)), built)
  }

  /** Rendering the entities `drawn` in order, starting from `cache`. */
  function RenderFrame(cache: map<string, Component>, drawn: seq<Entity>, hashOf: Component -> string): Progress
    requires AllDrawable(drawn)
    decreases |drawn|
  {
    if drawn == [] then Progress(cache, [], [])
    else DrawStep(RenderFrame(cache, drawn[..|drawn| - 1], hashOf), drawn[|drawn| - 1], hashOf)
  }

  lemma RenderFrameSnoc(cache: map<string, Component>, drawn: seq<Entity>, i: nat, hashOf: Component -> string)
    requires AllDrawable(drawn) && i < |drawn|
    ensures RenderFrame(cache, drawn[..i + 1], hashOf) == DrawStep(RenderFrame(cache, drawn[..i], hashOf), drawn[i], hashOf)
  {
    assert drawn[..i + 1][..i] == drawn[..i];
  }

  /** The cache only grows: earlier entries are kept unchanged, and it ends up
      holding exactly the earlier keys and the drawn entities' keys. */
  lemma {:induction false} RenderFrameCache(cache: map<string, Component>, drawn: seq<Entity>, hashOf: Component -> string)
    requires AllDrawable(drawn)
    ensures RenderFrame(cache, drawn, hashOf).cache.Keys == cache.Keys + DrawnKeys(drawn, hashOf)
    ensures forall key :: key in cache ==> RenderFrame(cache, drawn, hashOf).cache[key] == cache[key]
    decreases |drawn|
  {
    if drawn != [] {
      RenderFrameCache(cache, drawn[..|drawn| - 1], hashOf);
    }
  }

  /** A frame builds pipelines exactly for the drawn keys that were not
      already cached. */
  lemma {:induction false} RenderFrameBuildsNewKeys(cache: map<string, Component>, drawn: seq<Entity>, hashOf: Component -> string)
    requires AllDrawable(drawn)
    ensures forall key :: key in RenderFrame(cache, drawn, hashOf).built <==> key in DrawnKeys(drawn, hashOf) && key !in cache
    decreases |drawn|
  {
    if drawn != [] {
      var init := drawn[..|drawn| - 1];
      RenderFrameBuildsNewKeys(cache, init, hashOf);
      RenderFrameCache(cache, init, hashOf);
    }
  }

  /** The commands of drawing `drawn` when every pipeline is taken from `cache`. */
  function CommandsWith(cache: map<string, Component>, drawn: seq<Entity>, hashOf: Component -> string): seq<Command>
    requires AllDrawable(drawn) && DrawnKeys(drawn, hashOf) <= cache.Keys
    decreases |drawn|
  {
    if drawn == [] then []
    else
      var last := drawn[|drawn| - 1];
      CommandsWith(cache, drawn[..|drawn| - 1], hashOf) + DrawCommands(cache[PipelineKey(last, hashOf)], MeshOf(last))
  }

  lemma {:induction false} CommandsWithExtended(small: map<string, Component>, large: map<string, Component>, drawn: seq<Entity>, hashOf: Component -> string)
    requires AllDrawable(drawn) && DrawnKeys(drawn, hashOf) <= small.Keys
    requires forall key :: key in small ==> key in large && large[key] == small[key]
    ensures CommandsWith(small, drawn, hashOf) == CommandsWith(large, drawn, hashOf)
    decreases |drawn|
  {
    if drawn != [] {
      CommandsWithExtended(small, large, drawn[..|drawn| - 1], hashOf);
    }
  }

  /** Every drawn entity is encoded, in order, as `setPipeline` with the
      cached pipeline for its material's hash, `setVertexBuffer`,
      `setIndexBuffer` when its mesh is indexed, and `draw` of its vertex count. */
  lemma {:induction false} RenderFrameCommands(cache: map<string, Component>, drawn: seq<Entity>, hashOf: Component -> string)
    requires AllDrawable(drawn)
    ensures DrawnKeys(drawn, hashOf) <= RenderFrame(cache, drawn, hashOf).cache.Keys
    ensures RenderFrame(cache, drawn, hashOf).commands == CommandsWith(RenderFrame(cache, drawn, hashOf).cache, drawn, hashOf)
    decreases |drawn|
  {
    RenderFrameCache(cache, drawn, hashOf);
    if drawn != [] {
      var init := drawn[..|drawn| - 1];
      RenderFrameCommands(cache, init, hashOf);
      var before := RenderFrame(cache, init, hashOf);
      var after := RenderFrame(cache, drawn, hashOf);
      CommandsWithExtended(before.cache, after.cache, init, hashOf);
    }
  }

  function DrawCount(commands: seq<Command>): nat
    decreases |commands|
  {
    if commands == [] then 0 else (if commands[0].Draw? then 1 else 0) + DrawCount(commands[1..])
  }

  lemma {:induction false} DrawCountAppend(a: seq<Command>, b: seq<Command>)
    ensures DrawCount(a + b) == DrawCount(a) + DrawCount(b)
    decreases |a|
  {
    if a == [] {
      assert a + b == b;
    } else {
      assert (a + b)[1..] == a[1..] + b;
      DrawCountAppend(a[1..], b);
    }
  }

  /** The commands for one entity: `setPipeline`, then `setVertexBuffer`
      on slot 0, then `setIndexBuffer` exactly when the mesh is indexed, and
      a single `draw` of the mesh's vertex count, last. */
  lemma DrawCommandsOrder(pipeline: Component, mesh: Component)
    requires mesh.Mesh?
    ensures |DrawCommands(pipeline, mesh)| == if IsIndexed(mesh) then 4 else 3
    ensures DrawCommands(pipeline, mesh)[0] == SetPipeline(pipeline)
    ensures DrawCommands(pipeline, mesh)[1] == SetVertexBuffer(0, mesh)
    ensures IsIndexed(mesh) ==> DrawCommands(pipeline, mesh)[2] == SetIndexBuffer(mesh, "uint32")
    ensures DrawCommands(pipeline, mesh)[|DrawCommands(pipeline, mesh)| - 1] == Draw(|mesh.vertices|)
    ensures (exists k :: 0 <= k < |DrawCommands(pipeline, mesh)| && DrawCommands(pipeline, mesh)[k].SetIndexBuffer?) <==> IsIndexed(mesh)
    ensures DrawCount(DrawCommands(pipeline, mesh)) == 1
  {
    var head := [SetPipeline(pipeline), SetVertexBuffer(0, mesh)];
    var index: seq<Command> := if IsIndexed(mesh) then [SetIndexBuffer(mesh, "uint32")] else [];
    DrawCountAppend(head + index, [Draw(|mesh.vertices|)]);
    DrawCountAppend(head, index);
    assert DrawCount(head) == 0 by {
      assert head[1..][1..] == [];
    }
    if IsIndexed(mesh) {
      assert DrawCommands(pipeline, mesh)[2].SetIndexBuffer?;
    }
  }

  /** When every drawn key is already cached, a frame builds nothing, leaves
      the cache as it was and draws each entity with its cached pipeline. */
  lemma {:induction false} RenderFrameAllCached(cache: map<string, Component>, drawn: seq<Entity>, hashOf: Component -> string)
    requires AllDrawable(drawn) && DrawnKeys(drawn, hashOf) <= cache.Keys
    ensures RenderFrame(cache, drawn, hashOf).built == []
    ensures RenderFrame(cache, drawn, hashOf).cache == cache
    ensures RenderFrame(cache, drawn, hashOf).commands == CommandsWith(cache, drawn, hashOf)
    decreases |drawn|
  {
    if drawn != [] {
      RenderFrameAllCached(cache, drawn[..|drawn| - 1], hashOf);
    }
  }

  /** Drawing the same entities in the next frame reuses every pipeline the
      previous frame cached: nothing is built, the cache stays as it is, and
      the same commands are encoded. */
  lemma NextFrameReusesPipelines(cache: map<string, Component>, drawn: seq<Entity>, hashOf: Component -> string)
    requires AllDrawable(drawn)
    ensures RenderFrame(RenderFrame(cache, drawn, hashOf).cache, drawn, hashOf) ==
      Progress(RenderFrame(cache, drawn, hashOf).cache, RenderFrame(cache, drawn, hashOf).commands, [])
  {
    var first := RenderFrame(cache, drawn, hashOf);
    RenderFrameCommands(cache, drawn, hashOf);
    RenderFrameAllCached(first.cache, drawn, hashOf);
  }

  /** A frame encodes exactly one `draw` per drawn entity. */
  lemma {:induction false} RenderFrameDrawsEach(cache: map<string, Component>, drawn: seq<Entity>, hashOf: Component -> string)
    requires AllDrawable(drawn)
    ensures DrawCount(RenderFrame(cache, drawn, hashOf).commands) == |drawn|
    decreases |drawn|
  {
    if drawn != [] {
      var n := |drawn| - 1;
      var before := RenderFrame(cache, drawn[..n], hashOf);
      RenderFrameDrawsEach(cache, drawn[..n], hashOf);
      var key := PipelineKey(drawn[n], hashOf);
      var cached := DrawStep(before, drawn[n], hashOf).cache;
      DrawCommandsOrder(cached[key], MeshOf(drawn[n]));
      DrawCountAppend(before.commands, DrawCommands(cached[key], MeshOf(drawn[n])));
    }
  }

  /** A triangle: one entity with a material and a three-vertex, unindexed
      mesh, drawn with an empty cache, builds one pipeline and encodes
      `setPipeline`, `setVertexBuffer` and `draw(3)`, with no index buffer. */
  lemma TriangleFrame(material: Component, v0: Vertex, v1: Vertex, v2: Vertex, hashOf: Component -> string)
    requires material.Material?
    ensures
      var mesh := Mesh(PosColor, [v0, v1, v2], [], false);
      var e := Entity(0, [material, mesh]);
      && Drawable(e)
      && RenderFrame(map[], [e], hashOf).built == [hashOf(material)]
      && RenderFrame(map[], [e], hashOf).commands ==
         [SetPipeline(NewPipeline(material, mesh, hashOf(material))), SetVertexBuffer(0, mesh), Draw(3)]
  {
    var mesh := Mesh(PosColor, [v0, v1, v2], [], false);
    var e := Entity(0, [material, mesh]);
    assert FirstOfClass(e.components, MaterialClass) == 0;
    assert FirstOfClass(e.components[1..], MeshClass) == 0;
    assert FirstOfClass(e.components, MeshClass) == 1;
    assert [e][..0] == [];
    assert RenderFrame(map[], [], hashOf) == Progress(map[], [], []);
  }

  // ---------------------------------------------------------------- game

  class Game {
    const name: string
    const world: World
    /** The content hash `material.hash` (SHA-1 of the object). */
    const hashOf: Component -> string
    var systems: seq<System>
    /** The pipeline cache, keyed by material hash. */
    var pipelines: map<string, Component>
    /** The recorded effects of every `update` so far. */
    var trace: seq<Event>

    ghost predicate Valid()
      reads this, world, world.counter, world.resources
    {
      && world.Valid()
      && forall key :: key in pipelines ==> pipelines[key].Pipeline? && pipelines[key].key == key
    }

    constructor (name: string, counter: IdCounter, hashOf: Component -> string)
      requires counter.lastId >= -1
      ensures Valid() && fresh(world) && fresh(world.resources)
      ensures this.name == name && this.hashOf == hashOf && world.counter == counter
      ensures world.entities == [] && world.resources.store == map[]
      ensures systems == [] && pipelines == map[] && trace == []
    {
      this.name := name;
      this.hashOf := hashOf;
      world := new World(counter);
      systems := [];
      pipelines := map[];
      trace := [];
    }

    /** `add`: registers `system` after the ones already registered. */
    method Add(system: System)
      modifies this`systems
      ensures systems == old(systems) + [system]
    {
      systems := systems + [system];
    }

    /** `time`: the World's `Tick` resource, or `Tick.zero(1 / 60)` when none is set. */
    function Time(): (t: Objects.Tick)
      reads world.resources
      ensures world.resources.Valid() && TickClass in world.resources.store ==> world.resources.store[TickClass] == TickObject(t)
      ensures TickClass !in world.resources.store ==> t == TickZero(1.0 / 60.0)
    {
      match world.resources.Get(TickClass)
      case Some(TickObject(t)) => t
      case _ => TickZero(1.0 / 60.0)
    }

    /** `tick`: stores the tick as the World's `Tick` resource, then updates. */
    method Tick(tick: Objects.Tick)
      requires Valid()
      modifies this`trace, world.resources
      ensures Valid()
      ensures Time() == tick
      ensures world.resources.store == old(world.resources.store)[TickClass := TickObject(tick)]
      ensures trace == old(trace) + UpdateEvents(world.entities, systems)
    {
      var _ := world.resources.Set(TickObject(tick));
      Update();
    }

    /** `initializeResources`: calls `initialize` on each pending resource of `entity`. */
    method InitializeResources(entity: Entity)
      modifies this`trace
      ensures trace == old(trace) + InitializeCalls(entity)
    {
      var pending := PendingResources(entity.components);
      var k := 0;
      while k < |pending|
        invariant 0 <= k <= |pending|
        invariant trace == old(trace) + CallsFor(entity.id, pending[..k])
      {
        trace := trace + [InitializeResource(entity.id, pending[k])];
        assert pending[..k + 1][..k] == pending[..k];
        AppendAssociative(old(trace), CallsFor(entity.id, pending[..k]), [InitializeResource(entity.id, pending[k])]);
        k := k + 1;
      }
      assert pending[..|pending|] == pending;
    }

    /** `update`: polls events, initializes the pending resources of every
        entity holding a resource, then runs every system in order. */
    method Update()
      modifies this`trace
      ensures trace == old(trace) + UpdateEvents(world.entities, systems)
    {
      trace := trace + [PollEvents];
      var holders := ResourceHolders(world.entities);
      InitializeEntities(holders);
      RunSystems();
      AppendAssociative(old(trace), [PollEvents], InitEvents(holders));
      AppendAssociative(old(trace) + [PollEvents], InitEvents(holders), RunEvents(systems));
      AppendAssociative(old(trace), [PollEvents] + InitEvents(holders), RunEvents(systems));
    }

    /** `update`'s first loop: `initializeResources` for each of `holders`, in order. */
    method InitializeEntities(holders: seq<Entity>)
      modifies this`trace
      ensures trace == old(trace) + InitEvents(holders)
    {
      var i := 0;
      while i < |holders|
        invariant 0 <= i <= |holders|
        invariant trace == old(trace) + InitEvents(holders[..i])
      {
        InitializeResources(holders[i]);
        InitEventsSnoc(holders, i);
        AppendAssociative(old(trace), InitEvents(holders[..i]), InitializeCalls(holders[i]));
        i := i + 1;
      }
      assert holders[..|holders|] == holders;
    }

    /** `update`'s second loop: `system.run()` for each system, in order. */
    method RunSystems()
      modifies this`trace
      ensures trace == old(trace) + RunEvents(systems)
    {
      var j := 0;
      while j < |systems|
        invariant 0 <= j <= |systems|
        invariant trace == old(trace) + RunEvents(systems[..j])
      {
        trace := trace + [RunSystem(systems[j])];
        assert systems[..j + 1][..j] == systems[..j];
        AppendAssociative(old(trace), RunEvents(systems[..j]), [RunSystem(systems[j])]);
        j := j + 1;
      }
      assert systems[..|systems|] == systems;
    }

    /** One iteration of `render`'s loop: fetches the entity's mesh and
        material, builds and caches the pipeline when the material's hash is
        new, then encodes the entity's draw. */
    method DrawEntity(e: Entity, commands: seq<Command>, built: seq<string>) returns (commands': seq<Command>, built': seq<string>)
      requires Valid() && Drawable(e)
      modifies this`pipelines
      ensures Valid()
      ensures Progress(pipelines, commands', built') == DrawStep(Progress(old(pipelines), commands, built), e, hashOf)
    {
      var mesh := MeshOf(e);
      var material := MaterialOf(e);
      var key := hashOf(material);
      built' := built;
      if key !in pipelines {
        pipelines := pipelines[key := NewPipeline(material, mesh, key)];
        built' := built' + [key];
      }
      var pipeline := pipelines[key];
      commands' := commands + [SetPipeline(pipeline), SetVertexBuffer(0, mesh)];
      if IsIndexed(mesh) {
        commands' := commands' + [SetIndexBuffer(mesh, "uint32")];
      }
      commands' := commands' + [Draw(|mesh.vertices|)];
      ghost var head := [SetPipeline(pipeline), SetVertexBuffer(0, mesh)];
      ghost var index: seq<Command> := if IsIndexed(mesh) then [SetIndexBuffer(mesh, "uint32")] else [];
      AppendAssociative(commands, head, index);
      AppendAssociative(commands, head + index, [Draw(|mesh.vertices|)]);
    }

    /** The pipeline-cache and draw-encoding part of `render`, for the World's
        entities that have a mesh and a material, in insertion order. */
    method Render() returns (commands: seq<Command>, built: seq<string>)
      requires Valid()
      modifies this`pipelines
      ensures Valid()
      ensures Progress(pipelines, commands, built) == RenderFrame(old(pipelines), DrawnEntities(world.entities), hashOf)
    {
      var drawn := DrawnEntities(world.entities);
      commands, built := [], [];
      var i := 0;
      while i < |drawn|
        invariant 0 <= i <= |drawn|
        invariant Valid()
        invariant Progress(pipelines, commands, built) == RenderFrame(old(pipelines), drawn[..i], hashOf)
      {
        commands, built := DrawEntity(drawn[i], commands, built);
        RenderFrameSnoc(old(pipelines), drawn, i, hashOf);
        i := i + 1;
      }
      assert drawn[..|drawn|] == drawn;
    }
  }

  // ---------------------------------------------------- validation errors

  datatype ValidationError = ValidationError(message: string)

  /** How JavaScript's template literal prints an optional message. */
  function MessageText(message: Option<string>): string {
    match message
    case Some(m) => m
    case None => "undefined"
  }

  /** The message `ValidationError` builds from its message and the name of
      its optional source class. */
  function ValidationMessage(message: Option<string>, sourceName: Option<string>): (r: string)
    ensures |r| >= 18 && r[..18] == "Validation Error: "
    ensures sourceName.None? ==> r[18..] == MessageText(message)
    ensures sourceName.Some? ==> r[18..] == sourceName.value + ": " + MessageText(message)
  {
    var source := if sourceName.Some? then sourceName.value + ": " else "";
    "Validation Error: " + source + MessageText(message)
  }

  /** The process-wide `abortOnInstantiation` property of `ValidationError`. */
  class ValidationSettings {
    /** The value stored under `Symbol.for("abortOnValidationError")`, if any. */
    var stored: Option<bool>

    constructor ()
      ensures stored == None
      ensures !AbortOnInstantiation()
    {
      stored := None;
    }

    /** The getter: the stored value, or `false` when none was stored. */
    function AbortOnInstantiation(): (r: bool)
      reads this
      ensures r <==> stored == Some(true)
    {
      match stored
      case Some(value) => value
      case None => false
    }

    /** The setter. */
    method SetAbortOnInstantiation(value: bool)
      modifies this
      ensures stored == Some(value)
      ensures AbortOnInstantiation() == value
    {
      stored := Some(value);
    }

    /** `new ValidationError(message, { source })`: the error, and whether it
        schedules the process to exit (the abort setting read at creation). */
    method NewValidationError(message: Option<string>, sourceName: Option<string>) returns (e: ValidationError, exitScheduled: bool)
      ensures e.message == ValidationMessage(message, sourceName)
      ensures exitScheduled == AbortOnInstantiation()
    {
      e := ValidationError(ValidationMessage(message, sourceName));
      exitScheduled := AbortOnInstantiation();
    }
  }
}
