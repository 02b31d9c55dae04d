/**
 * The entity-component store the server builds on (shared/ecs.py:57-102): a
 * counter that hands out entity ids and one table per component kind.
 */
module Ecs {
  import opened Wrappers
  import opened Components
  import opened Store

  class World {
    /** The id the next create_entity returns (`_next_entity_id`). */
    var next: nat
    /** kind -> entity -> component (`_components`). */
    var tables: Tables

    ghost predicate Valid()
      reads this
    {
      WellKinded(tables)
    }

    /** A fresh world: ids start at 0 and no table exists yet. */
    constructor ()
      ensures Valid()
      ensures next == 0 && tables == map[]
    {
      next := 0;
      tables := map[];
    }

    /** Return the counter, then advance it: ids are never reissued. */
    method CreateEntity() returns (e: nat)
      modifies this
      ensures e == old(next) && next == old(next) + 1
      ensures tables == old(tables)
    {
      e := next;
      next := next + 1;
    }

    /** Insert or overwrite `c` under its kind, creating that kind's table on first use. */
    method AddComponent(e: nat, c: Component)
      requires Valid()
      modifies this
      ensures Valid()
      ensures tables == Insert(old(tables), e, c) && next == old(next)
    {
      ghost var t0 := tables;
      var k := KindOf(c);
      if k !in tables {
        var empty: Table := map[];
        tables := tables[k := empty];
      }
      var table: Table := tables[k][e := c];
      tables := tables[k := table];
      assert tables == Insert(t0, e, c);
    }

    /** get_component: absent for a missing table or entry; never creates a table. */
    function GetComponent(e: nat, k: Kind): (r: Option<Component>)
      reads this
      requires Valid()
      ensures r.Some? ==> KindOf(r.value) == k
      ensures r.Some? <==> k in tables && e in tables[k]
      ensures r.Some? ==> r.value == tables[k][e]
    {
      Lookup(tables, e, k)
    }

    /** get_components: read-only; the rows of every entity holding all of `kinds`. */
    method GetComponents(kinds: seq<Kind>) returns (rows: map<nat, seq<Component>>)
      requires Valid()
      ensures rows == Query(tables, kinds)
      ensures forall e :: e in rows ==> |rows[e]| == |kinds|
    {
      rows := Collect(tables, kinds);
    }

    /** destroy_entity: pop `e` from every existing table; the tables themselves stay. */
    method DestroyEntity(e: nat)
      requires Valid()
      modifies this
      ensures Valid()
      ensures tables == RemoveEntity(old(tables), e) && next == old(next)
    {
      var pending := tables.Keys;
      while pending != {}
        invariant pending <= tables.Keys
        invariant tables.Keys == old(tables).Keys
        invariant forall k :: k in tables ==>
                    tables[k] == if k in pending then old(tables)[k] else old(tables)[k] - {e}
        invariant next == old(next)
        decreases pending
      {
        var k :| k in pending;
        tables := tables[k := tables[k] - {e}];
        pending := pending - {k};
      }
    }
  }

  /**
   * Ids count up from 0 and a destroyed entity's id is not handed out again:
   * create, destroy, create yields 0 and then 1. In general this follows from
   * CreateEntity returning the counter and advancing it, and DestroyEntity
   * keeping it.
   */
  method IdsAreNotReissued() returns (first: nat, second: nat)
    ensures first == 0 && second == 1
  {
    var world := new World();
    first := world.CreateEntity();
    world.AddComponent(first, Position(1.0, 2.0));
    world.DestroyEntity(first);
    second := world.CreateEntity();
  }
}
