/**
 Cascading soft delete: the entities and what hangs on their named relations get one deletion time. They may
 share related entities, hang on each other or occur twice; the outcome does not depend on the order.
 */
module SoftDelete {

  /** The deletion mark: the property may be missing, undefined (a new entity), null (a stored one) or set. */
  datatype Mark = Missing | Undefined | Null | At(time: int)

  datatype Relation = Nothing | Many(items: Collection) | One(entity: Entity)

  /** A to-many relation; `rows` are what loading it brings. */
  class Collection {
    const rows: seq<Entity>
    var initialized: bool

    constructor (rows: seq<Entity>, initialized: bool)
      ensures this.rows == rows && this.initialized == initialized
    {
      this.rows := rows;
      this.initialized := initialized;
    }
  }

  class Entity {
    var deletedAt: Mark
    const relations: map<string, Relation>

    constructor (deletedAt: Mark, relations: map<string, Relation>)
      ensures this.deletedAt == deletedAt && this.relations == relations
    {
      this.deletedAt := deletedAt;
      this.relations := relations;
    }

    function Related(name: string): Relation {
      if name in relations then relations[name] else Nothing
    }
  }

  // ----- What is touched, and what is marked

  ghost function EntitiesOf(r: Relation): set<Entity> {
    match r
    case Nothing => {}
    case Many(items) => set x | x in items.rows
    case One(entity) => {entity}
  }

  ghost function CollectionsOf(r: Relation): set<Collection> {
    if r.Many? then {r.items} else {}
  }

  ghost function Touched(entities: seq<Entity>, names: seq<string>): set<Entity> {
    (set e | e in entities)
    + (set e, name, x | e in entities && name in names && x in EntitiesOf(e.Related(name)) :: x)
  }

  ghost function Loaded(entities: seq<Entity>, names: seq<string>): set<Collection> {
    set e, name, c | e in entities && name in names && c in CollectionsOf(e.Related(name)) :: c
  }

  /** A related entity is marked through a collection if its mark is defined, directly if it has one at all. */
  predicate MarkedThrough(r: Relation, x: Entity, mark: Mark) {
    match r
    case Nothing => false
    case Many(items) => x in items.rows && (mark.Null? || mark.At?)
    case One(entity) => x == entity && !mark.Missing?
  }

  ghost predicate Marked(entities: seq<Entity>, names: seq<string>, x: Entity, mark: Mark) {
    x in entities || exists e, name :: e in entities && name in names && MarkedThrough(e.Related(name), x, mark)
  }

  /** Related rows that were loaded from the tables are all marked; only new ones in a collection can be missed. */
  lemma StoredRelativesAreMarked(entities: seq<Entity>, names: seq<string>, x: Entity, mark: Mark)
    ensures mark.Null? || mark.At? ==> (Marked(entities, names, x, mark) <==> x in Touched(entities, names))
    ensures Marked(entities, names, x, mark) ==> x in Touched(entities, names)
  {
    forall e, name | e in entities && name in names && MarkedThrough(e.Related(name), x, mark)
      ensures x in Touched(entities, names)
    {
      assert x in EntitiesOf(e.Related(name));
    }
  }

  /** A mark after the deletion. */
  ghost function After(entities: seq<Entity>, names: seq<string>, x: Entity, mark: Mark, now: int): Mark {
    if Marked(entities, names, x, mark) then At(now) else mark
  }

  lemma OneMoreEntity(entities: seq<Entity>, names: seq<string>, i: nat, now: int)
    requires i < |entities|
    ensures Touched([entities[i]], names) <= Touched(entities, names)
    ensures Loaded([entities[i]], names) <= Loaded(entities, names)
    ensures Loaded(entities[..i + 1], names) == Loaded(entities[..i], names) + Loaded([entities[i]], names)
    ensures forall x, mark ::
              After(entities[..i + 1], names, x, mark, now) ==
              After([entities[i]], names, x, After(entities[..i], names, x, mark, now), now)
  {
    assert entities[..i + 1] == entities[..i] + [entities[i]];
  }

  lemma OneMoreName(e: Entity, names: seq<string>, k: nat, now: int)
    requires k < |names|
    ensures EntitiesOf(e.Related(names[k])) <= Touched([e], names)
    ensures CollectionsOf(e.Related(names[k])) <= Loaded([e], names)
    ensures Loaded([e], names[..k + 1]) == Loaded([e], names[..k]) + CollectionsOf(e.Related(names[k]))
    ensures forall x, mark ::
              After([e], names[..k + 1], x, mark, now) ==
              var before := After([e], names[..k], x, mark, now);
              if MarkedThrough(e.Related(names[k]), x, before) then At(now) else before
  {
    assert names[..k + 1] == names[..k] + [names[k]];
  }

  // ----- The code; `reach` and `loads` are the objects the whole deletion may touch

  method MarkItems(rows: seq<Entity>, now: int, ghost reach: set<Entity>)
    requires forall x :: x in rows ==> x in reach
    modifies reach
    ensures forall x :: x in reach ==>
              x.deletedAt == if x in rows && (old(x.deletedAt).Null? || old(x.deletedAt).At?) then At(now)
                             else old(x.deletedAt)
  {
    for i := 0 to |rows|
      invariant forall x :: x in reach ==>
                  x.deletedAt == if x in rows[..i] && (old(x.deletedAt).Null? || old(x.deletedAt).At?) then At(now)
                                 else old(x.deletedAt)
    {
      if rows[i].deletedAt != Missing && rows[i].deletedAt != Undefined {
        rows[i].deletedAt := At(now);
      }
    }
  }

  method MarkRelated(r: Relation, now: int, ghost reach: set<Entity>, ghost loads: set<Collection>)
    requires EntitiesOf(r) <= reach && CollectionsOf(r) <= loads
    modifies reach, loads
    ensures forall x :: x in reach ==>
              x.deletedAt == if MarkedThrough(r, x, old(x.deletedAt)) then At(now) else old(x.deletedAt)
    ensures forall c :: c in loads ==> c.initialized == (c in CollectionsOf(r) || old(c.initialized))
  {
    match r {
      case Nothing =>
      case Many(items) =>
        if !items.initialized {
          items.initialized := true;
        }
        MarkItems(items.rows, now, reach);
      case One(entity) =>
        if entity.deletedAt != Missing {
          entity.deletedAt := At(now);
        }
    }
  }

  method MarkWithRelated(
    e: Entity, names: seq<string>, now: int, ghost reach: set<Entity>, ghost loads: set<Collection>)
    requires Touched([e], names) <= reach && Loaded([e], names) <= loads
    modifies reach, loads
    ensures forall x :: x in reach ==> x.deletedAt == After([e], names, x, old(x.deletedAt), now)
    ensures forall c :: c in loads ==> c.initialized == (c in Loaded([e], names) || old(c.initialized))
  {
    e.deletedAt := At(now);
    for k := 0 to |names|
      invariant forall x :: x in reach ==> x.deletedAt == After([e], names[..k], x, old(x.deletedAt), now)
      invariant forall c :: c in loads ==> c.initialized == (c in Loaded([e], names[..k]) || old(c.initialized))
    {
      OneMoreName(e, names, k, now);
      MarkRelated(e.Related(names[k]), now, reach, loads);
    }
    assert names[..|names|] == names;
  }

  method CascadeSoftDelete(entities: seq<Entity>, names: seq<string>, now: int)
    modifies Touched(entities, names), Loaded(entities, names)
    ensures forall x :: x in Touched(entities, names) ==>
              x.deletedAt == if Marked(entities, names, x, old(x.deletedAt)) then At(now) else old(x.deletedAt)
    ensures forall c :: c in Loaded(entities, names) ==> c.initialized
  {
    ghost var reach, loads := Touched(entities, names), Loaded(entities, names);
    for i := 0 to |entities|
      invariant forall x :: x in reach ==> x.deletedAt == After(entities[..i], names, x, old(x.deletedAt), now)
      invariant forall c :: c in loads ==> c.initialized == (c in Loaded(entities[..i], names) || old(c.initialized))
    {
      OneMoreEntity(entities, names, i, now);
      MarkWithRelated(entities[i], names, now, reach, loads);
    }
    assert entities[..|entities|] == entities;
  }

  /** A new child, without a deletion mark, that hangs in a collection of the deleted entity is left as it is. */
  lemma NewChildIsMissed(e: Entity, name: string, child: Entity, now: int)
    requires e.Related(name).Many? && child in e.Related(name).items.rows && child != e
    ensures child in Touched([e], [name])
    ensures After([e], [name], child, Undefined, now) == Undefined
    ensures After([e], [name], child, Null, now) == At(now)
  {
    assert child in EntitiesOf(e.Related(name)) && e in [e] && name in [name];
  }

  /**
   Exactly which relatives a deletion misses: those that are not deleted themselves and either have no
   property for the mark, or have it undefined and are reached through collections only.
   */
  lemma MissedExactly(entities: seq<Entity>, names: seq<string>, x: Entity, mark: Mark)
    requires x in Touched(entities, names)
    ensures !Marked(entities, names, x, mark) <==>
            && x !in entities
            && (mark.Missing?
                || (mark.Undefined? && forall e, name :: e in entities && name in names ==> e.Related(name) != One(x)))
  {
    if x !in entities {
      var e, name :| e in entities && name in names && x in EntitiesOf(e.Related(name));
      assert mark.Null? || mark.At? ==> MarkedThrough(e.Related(name), x, mark);
      forall f, n | f in entities && n in names && f.Related(n) == One(x) ensures mark.Undefined? ==> Marked(entities, names, x, mark) {
        assert mark.Undefined? ==> MarkedThrough(f.Related(n), x, mark);
      }
    }
  }

  /** The whole of it: a parent with one new child in a collection is deleted, and the child is not. */
  method DeleteParentOfNewChild(now: int) returns (parent: Entity, child: Entity)
    ensures fresh(parent) && fresh(child)
    ensures parent.deletedAt == At(now) && child.deletedAt == Undefined
  {
    child := new Entity(Undefined, map[]);
    var children := new Collection([child], true);
    parent := new Entity(Null, map["children" := Many(children)]);
    NewChildIsMissed(parent, "children", child, now);
    assert parent in [parent];
    CascadeSoftDelete([parent], ["children"], now);
  }
}
