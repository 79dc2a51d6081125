/** The entity-component store and its query engine (ecs/mod.ts). */
module Ecs {
  import opened Collections
  import opened Objects

  /** The module-level `lastId` counter. There is one per program and every
      World draws its entity ids from it; the model passes it explicitly. */
  class IdCounter {
    var lastId: int

    /** The counter's declaration: `let lastId = -1`. */
    constructor ()
      ensures lastId == -1
    {
      lastId := -1;
    }
  }

  /** An entity as queries see it: its id and its component list. */
  datatype Entity = Entity(id: int, components: seq<Component>)

  predicate IdsIncreasing(entries: seq<Entity>) {
    forall i, j :: 0 <= i < j < |entries| ==> entries[i].id < entries[j].id
  }

  /** The entity table read as a map from id to component list; a later
      entry for the same id replaces an earlier one, as `Map.set` does. */
  function EntityMap(entries: seq<Entity>): (m: map<int, seq<Component>>)
    decreases |entries|
  {
    if entries == [] then map[]
    else
      var last := entries[|entries| - 1];
      EntityMap(entries[..|entries| - 1])[last.id := last.components]
  }

  /** Every entity of the table can be looked up by its id. */
  lemma {:induction false} EntityMapLookup(entries: seq<Entity>, k: int)
    requires IdsIncreasing(entries)
    requires 0 <= k < |entries|
    ensures entries[k].id in EntityMap(entries)
    ensures EntityMap(entries)[entries[k].id] == entries[k].components
    decreases |entries|
  {
    var n := |entries| - 1;
    if k < n {
      EntityMapLookup(entries[..n], k);
    }
  }

  // ---------------------------------------------------------------- tags

  /** `World.tag` as written: an entity without a tag list gets none (the
      optional `push` runs on `undefined`), and an entity that has one gets
      its list replaced by `[label]`. */
  function TaggedAsWritten(tags: map<int, seq<string>>, id: int, name: string): map<int, seq<string>> {
    if id !in tags then tags else tags[id := [name]]
  }

  /** `World.tag` with its two branches the right way round. */
  function TaggedIntended(tags: map<int, seq<string>>, id: int, name: string): map<int, seq<string>> {
    if id in tags then tags[id := tags[id] + [name]] else tags[id := [name]]
  }

  predicate HasTagIn(tags: map<int, seq<string>>, id: int, name: string) {
    id in tags && name in tags[id]
  }

  /** The result of applying `tag` (as written) once per pair in `ops`. */
  function TagAllAsWritten(tags: map<int, seq<string>>, ops: seq<(int, string)>): map<int, seq<string>>
    decreases |ops|
  {
    if ops == [] then tags else TagAllAsWritten(TaggedAsWritten(tags, ops[0].0, ops[0].1), ops[1..])
  }

  /** As written, `tag` never creates a tag list, so a World whose tag table
      starts empty keeps it empty whatever is tagged. */
  lemma {:induction false} TagAsWrittenKeepsEmptyTable(ops: seq<(int, string)>, id: int, name: string)
    ensures TagAllAsWritten(map[], ops) == map[]
    ensures !HasTagIn(TagAllAsWritten(map[], ops), id, name)
    decreases |ops|
  {
    if ops != [] {
      assert TaggedAsWritten(map[], ops[0].0, ops[0].1) == map[];
      TagAsWrittenKeepsEmptyTable(ops[1..], id, name);
    }
  }

  /** With the branches corrected, a tagged entity has the label afterwards,
      keeps its earlier labels, and no other entity's tags change. */
  lemma TagIntendedAddsLabel(tags: map<int, seq<string>>, id: int, name: string)
    ensures HasTagIn(TaggedIntended(tags, id, name), id, name)
    ensures forall l :: HasTagIn(tags, id, l) ==> HasTagIn(TaggedIntended(tags, id, name), id, l)
    ensures forall other :: other != id ==> (other in tags <==> other in TaggedIntended(tags, id, name))
    ensures forall other :: other != id && other in tags ==> TaggedIntended(tags, id, name)[other] == tags[other]
  {
  }

  // ----------------------------------------------------------- resources

  /** The World's singleton registry: at most one value per class. */
  class Resources {
    var store: map<ClassName, Object>

    ghost predicate Valid()
      reads this
    {
      forall k :: k in store ==> KeyOf(store[k]) == k
    }

    constructor ()
      ensures Valid() && store == map[]
    {
      store := map[];
    }

    /** Adds or replaces the value of `value`'s class and returns `value`. */
    method Set(value: Object) returns (r: Object)
      requires Valid()
      modifies this
      ensures Valid()
      ensures r == value
      ensures store == old(store)[KeyOf(value) := value]
      ensures Get(KeyOf(value)) == Some(value)
      ensures forall k :: k != KeyOf(value) ==> Get(k) == old(Get(k))
    {
      store := store[KeyOf(value) := value];
      r := value;
    }

    /** The value registered for `symbol`'s class, or `None` (JavaScript's `null`). */
    function Get(symbol: ClassName): (r: Option<Object>)
      reads this
      ensures r.None? <==> symbol !in store
      ensures r.Some? ==> symbol in store && r.value == store[symbol]
      ensures Valid() && r.Some? ==> KeyOf(r.value) == symbol
    {
      if symbol !in store then None else Some(store[symbol])
    }
  }

  /** Two `set`s of values of one class: `get` returns the later value, and
      a class that was never set reads as `None`. */
  method ResourceReplaceScenario(a: Object, b: Object, other: ClassName) returns (got: Option<Object>, missing: Option<Object>)
    requires KeyOf(a) == KeyOf(b) && other != KeyOf(a)
    ensures got == Some(b)
    ensures missing == None
  {
    var resources := new Resources();
    var _ := resources.Set(a);
    var _ := resources.Set(b);
    got := resources.Get(KeyOf(a));
    missing := resources.Get(other);
  }

  // --------------------------------------------------------------- world

  class World {
    const counter: IdCounter
    const resources: Resources
    var entities: seq<Entity>
    var tags: map<int, seq<string>>

    /** Ids are non-negative, strictly increasing in insertion order, and
        none exceeds the shared counter, so the next id is fresh. */
    ghost predicate Valid()
      reads this, counter, resources
    {
      && counter.lastId >= -1
      && IdsIncreasing(entities)
      && (forall k :: 0 <= k < |entities| ==> 0 <= entities[k].id <= counter.lastId)
      && resources.Valid()
    }

    constructor (counter: IdCounter)
      requires counter.lastId >= -1
      ensures Valid()
      ensures this.counter == counter && fresh(resources)
      ensures entities == [] && tags == map[] && resources.store == map[]
    {
      this.counter := counter;
      resources := new Resources();
      entities := [];
      tags := map[];
    }

    /** Adds an entity holding exactly `components` under the next id drawn
        from the shared counter. */
    method Spawn(components: seq<Component>) returns (id: int)
      requires Valid()
      modifies this`entities, counter`lastId
      ensures Valid()
      ensures id == old(counter.lastId) + 1 && counter.lastId == id
      ensures entities == old(entities) + [Entity(id, components)]
      ensures forall k :: 0 <= k < |old(entities)| ==> old(entities)[k].id < id
      ensures EntityMap(entities) == EntityMap(old(entities))[id := components]
    {
      counter.lastId := counter.lastId + 1;
      id := counter.lastId;
      ghost var before := entities;
      entities := entities + [Entity(id, components)];
      assert entities[..|entities| - 1] == before;
    }

    /** `tag`, with its branches inverted as in the source. */
    method Tag(entity: Entity, name: string)
      modifies this`tags
      ensures entity.id !in old(tags) ==> tags == old(tags)
      ensures entity.id in old(tags) ==> tags == old(tags)[entity.id := [name]]
      ensures tags == TaggedAsWritten(old(tags), entity.id, name)
    {
      if entity.id !in tags {
        // `this._tags.get(id)?.push(label)`: there is no list to push onto
      } else {
        tags := tags[entity.id := [name]];
      }
    }

    function HasTag(entity: Entity, name: string): (r: bool)
      reads this
      ensures r <==> entity.id in tags && exists k :: 0 <= k < |tags[entity.id]| && tags[entity.id][k] == name
    {
      HasTagIn(tags, entity.id, name)
    }

    function Tags(entity: Entity): (r: seq<string>)
      reads this
      ensures entity.id !in tags ==> r == []
      ensures entity.id in tags ==> r == tags[entity.id]
    {
      if entity.id !in tags then [] else tags[entity.id]
    }
  }

  /** Entity ids come from one counter shared by all Worlds: spawning into
      two Worlds in turn hands out 0, 1, 2 with no id repeated. */
  method SharedCounterScenario() returns (a: int, b: int, c: int)
    ensures a == 0 && b == 1 && c == 2
  {
    var counter := new IdCounter();
    var first := new World(counter);
    var second := new World(counter);
    a := first.Spawn([]);
    assert second.entities == [];
    b := second.Spawn([]);
    assert first.entities == [Entity(0, [])];
    c := first.Spawn([]);
  }

  // ------------------------------------------------------------- queries

  /** A query is a predicate over entities. */
  datatype Query =
    | FilterQuery(componentFilter: Component -> bool)  // `Filter`
    | ComponentOf(symbol: ClassName)
    | AndQuery(queries: seq<Query>)

  /** `Query.match`. */
  function Match(q: Query, e: Entity): bool
    decreases q
  {
    match q
    case FilterQuery(p) => Any(e.components, p)
    case ComponentOf(symbol) => Any(e.components, (c: Component) => ClassOf(c) == symbol)
    case AndQuery(qs) => forall i | 0 <= i < |qs| :: Match(qs[i], e)
  }

  /** `Filter.by(componentFilter)`. */
  function FilterBy(componentFilter: Component -> bool): (q: Query)
    ensures forall e :: Match(q, e) <==> exists k :: 0 <= k < |e.components| && componentFilter(e.components[k])
  {
    FilterQuery(componentFilter)
  }

  /** An entity matches `ComponentOf(symbol)` iff one of its components is of that class. */
  lemma ComponentOfMatches(symbol: ClassName, e: Entity)
    ensures Match(ComponentOf(symbol), e) <==> exists k :: 0 <= k < |e.components| && ClassOf(e.components[k]) == symbol
  {
  }

  /** `query(...queries)`: the conjunction of `queries`. */
  function QueryOf(queries: seq<Query>): (q: Query)
    ensures forall e :: Match(q, e) <==> forall i :: 0 <= i < |queries| ==> Match(queries[i], e)
  {
    AndQuery(queries)
  }

  /** `Query.entities`: the table's entries that match, in insertion order. */
  function Entities(q: Query, entries: seq<Entity>): (r: seq<Entity>)
    ensures forall e :: e in r <==> e in entries && Match(q, e)
  {
    Filter(entries, (e: Entity) => Match(q, e))
  }

  /** A query returns its matches in the table's insertion order. */
  lemma EntitiesInOrder(q: Query, entries: seq<Entity>)
    ensures Subsequence(Entities(q, entries), entries)
  {
    FilterIsSubsequence(entries, (e: Entity) => Match(q, e));
  }

  /** Filtering a table keeps its ascending id order. */
  lemma {:induction false} FilterKeepsIdsIncreasing(entries: seq<Entity>, p: Entity -> bool)
    requires IdsIncreasing(entries)
    ensures IdsIncreasing(Filter(entries, p))
    decreases |entries|
  {
    if entries != [] {
      var tail := entries[1..];
      assert IdsIncreasing(tail) by {
        forall i, j | 0 <= i < j < |tail| ensures tail[i].id < tail[j].id {
          assert tail[i] == entries[i + 1] && tail[j] == entries[j + 1];
        }
      }
      FilterKeepsIdsIncreasing(tail, p);
      var rest := Filter(tail, p);
      if p(entries[0]) {
        forall k | 0 <= k < |rest|
          ensures entries[0].id < rest[k].id
        {
          assert rest[k] in tail;
          var j :| 0 <= j < |tail| && tail[j] == rest[k];
          assert entries[j + 1] == rest[k];
        }
        assert Filter(entries, p) == [entries[0]] + rest;
      }
    }
  }

  /** A query's result keeps the table's ascending id order. */
  lemma EntitiesAscending(q: Query, entries: seq<Entity>)
    requires IdsIncreasing(entries)
    ensures IdsIncreasing(Entities(q, entries))
  {
    FilterKeepsIdsIncreasing(entries, (e: Entity) => Match(q, e));
  }

  /** `query()` with no sub-query matches every entity. */
  lemma EmptyQueryMatchesAll(entries: seq<Entity>)
    ensures Entities(QueryOf([]), entries) == entries
  {
    FilterKeepsAll(entries, (e: Entity) => Match(QueryOf([]), e));
  }

  /** The conjunction of two queries is the first query's result filtered
      by the second, so it holds exactly the entities both return, in
      insertion order. */
  lemma ConjunctionIsIntersection(q1: Query, q2: Query, entries: seq<Entity>)
    ensures Entities(QueryOf([q1, q2]), entries) == Filter(Entities(q1, entries), (e: Entity) => Match(q2, e))
    ensures forall e :: e in Entities(QueryOf([q1, q2]), entries) <==> e in Entities(q1, entries) && e in Entities(q2, entries)
  {
    var both := QueryOf([q1, q2]);
    forall e: Entity
      ensures Match(both, e) == (Match(q1, e) && Match(q2, e))
    {
      assert [q1, q2][0] == q1 && [q1, q2][1] == q2;
    }
    FilterFilter(entries, (e: Entity) => Match(q1, e), (e: Entity) => Match(q2, e), (e: Entity) => Match(both, e));
  }

  // ------------------------------------------------------ mapped queries

  /** The query `Query.map` returns: the same `match`, and `entities`
      post-processed by `project`. */
  datatype Mapped<U> = Mapped(base: Query, project: seq<Entity> -> seq<U>)

  /** `Array.prototype.map` with the callback's (value, index, array) arguments. */
  function MapIndexed<T, U>(s: seq<T>, f: (T, int, seq<T>) -> U): seq<U> {
    seq(|s|, i requires 0 <= i < |s| => f(s[i], i, s))
  }

  /** `Query.map(callback)` on an entity query. */
  function Map<U>(q: Query, callback: (Entity, int, seq<Entity>) -> U): Mapped<U> {
    Mapped(q, (xs: seq<Entity>) => MapIndexed(xs, callback))
  }

  /** `map` on a query that is itself mapped. */
  function MapMapped<U, V>(m: Mapped<U>, callback: (U, int, seq<U>) -> V): Mapped<V> {
    Mapped(m.base, (xs: seq<Entity>) => MapIndexed(m.project(xs), callback))
  }

  function MappedMatch<U>(m: Mapped<U>, e: Entity): bool {
    Match(m.base, e)
  }

  function MappedEntities<U>(m: Mapped<U>, entries: seq<Entity>): seq<U> {
    m.project(Entities(m.base, entries))
  }

  /** A mapped query matches what its query matches, and its entities are
      the query's entities mapped element-wise. */
  lemma MappedQueryAgrees<U>(q: Query, callback: (Entity, int, seq<Entity>) -> U, entries: seq<Entity>, e: Entity)
    ensures MappedMatch(Map(q, callback), e) == Match(q, e)
    ensures |MappedEntities(Map(q, callback), entries)| == |Entities(q, entries)|
    ensures forall i :: 0 <= i < |Entities(q, entries)| ==>
      MappedEntities(Map(q, callback), entries)[i] == callback(Entities(q, entries)[i], i, Entities(q, entries))
  {
  }

  /** Mapping a mapped query maps its entities once more and keeps its `match`. */
  lemma MappedTwiceAgrees<U, V>(m: Mapped<U>, callback: (U, int, seq<U>) -> V, entries: seq<Entity>, e: Entity)
    ensures MappedMatch(MapMapped(m, callback), e) == MappedMatch(m, e)
    ensures MappedEntities(MapMapped(m, callback), entries) == MapIndexed(MappedEntities(m, entries), callback)
  {
  }

  // ------------------------------------------------- ComponentOf.components

  /** The components of `cs` that are instances of `symbol`, in order. */
  function OfClass(cs: seq<Component>, symbol: ClassName): seq<Component> {
    Filter(cs, (c: Component) => ClassOf(c) == symbol)
  }

  /** The in-order concatenation of each entity's instances of `symbol`. */
  function InstancesIn(es: seq<Entity>, symbol: ClassName): seq<Component>
    decreases |es|
  {
    if es == [] then []
    else InstancesIn(es[..|es| - 1], symbol) + OfClass(es[|es| - 1].components, symbol)
  }

  lemma OfClassMembers(cs: seq<Component>, symbol: ClassName, c: Component)
    ensures c in OfClass(cs, symbol) <==> c in cs && ClassOf(c) == symbol
  {
  }

  /** A component is collected iff it is an instance of `symbol` held by one of the entities. */
  lemma {:induction false} InstancesInMembers(es: seq<Entity>, symbol: ClassName, c: Component)
    ensures c in InstancesIn(es, symbol) <==> ClassOf(c) == symbol && exists k :: 0 <= k < |es| && c in es[k].components
    decreases |es|
  {
    if es != [] {
      var n := |es| - 1;
      var init := es[..n];
      InstancesInMembers(init, symbol, c);
      OfClassMembers(es[n].components, symbol, c);
      var all := InstancesIn(es, symbol);
      assert all == InstancesIn(init, symbol) + OfClass(es[n].components, symbol);
      assert c in all <==> c in InstancesIn(init, symbol) || c in OfClass(es[n].components, symbol);
      assert (exists k :: 0 <= k < |es| && c in es[k].components) <==>
             (exists k :: 0 <= k < n && c in init[k].components) || c in es[n].components by {
        if exists k :: 0 <= k < |es| && c in es[k].components {
          var k :| 0 <= k < |es| && c in es[k].components;
          if k < n {
            assert init[k] == es[k];
          }
        }
        if exists k :: 0 <= k < n && c in init[k].components {
          var k :| 0 <= k < n && c in init[k].components;
          assert es[k] == init[k];
        }
      }
    }
  }

  /** The components `ComponentOf(symbol).components` collects are exactly
      the `symbol` instances attached to some entity of the table. */
  lemma MatchedInstances(symbol: ClassName, entries: seq<Entity>, c: Component)
    ensures c in InstancesIn(Entities(ComponentOf(symbol), entries), symbol) <==>
      ClassOf(c) == symbol && exists k :: 0 <= k < |entries| && c in entries[k].components
  {
    var matched := Entities(ComponentOf(symbol), entries);
    InstancesInMembers(matched, symbol, c);
    if c in InstancesIn(matched, symbol) {
      var k :| 0 <= k < |matched| && c in matched[k].components;
      assert matched[k] in entries;
      var j :| 0 <= j < |entries| && entries[j] == matched[k];
      assert c in entries[j].components;
    }
    if ClassOf(c) == symbol && exists k :: 0 <= k < |entries| && c in entries[k].components {
      var k :| 0 <= k < |entries| && c in entries[k].components;
      var j :| 0 <= j < |entries[k].components| && entries[k].components[j] == c;
      assert Match(ComponentOf(symbol), entries[k]);
      assert entries[k] in matched;
      var i :| 0 <= i < |matched| && matched[i] == entries[k];
      assert c in matched[i].components;
    }
  }

  lemma InstancesInSnoc(es: seq<Entity>, symbol: ClassName, i: nat)
    requires i < |es|
    ensures InstancesIn(es[..i + 1], symbol) == InstancesIn(es[..i], symbol) + OfClass(es[i].components, symbol)
  {
    assert es[..i + 1][..i] == es[..i];
  }

  /** `ComponentOf.components`: every instance of `symbol` held by a matching entity. */
  method Components(symbol: ClassName, entries: seq<Entity>) returns (acc: seq<Component>)
    ensures acc == InstancesIn(Entities(ComponentOf(symbol), entries), symbol)
    ensures forall c :: c in acc <==> ClassOf(c) == symbol && exists k :: 0 <= k < |entries| && c in entries[k].components
  {
    var matched := Entities(ComponentOf(symbol), entries);
    acc := [];
    var i := 0;
    while i < |matched|
      invariant 0 <= i <= |matched|
      invariant acc == InstancesIn(matched[..i], symbol)
    {
      acc := acc + OfClass(matched[i].components, symbol);
      InstancesInSnoc(matched, symbol, i);
      i := i + 1;
    }
    assert matched[..|matched|] == matched;
    forall c
      ensures c in acc <==> ClassOf(c) == symbol && exists k :: 0 <= k < |entries| && c in entries[k].components
    {
      MatchedInstances(symbol, entries, c);
    }
  }

}
