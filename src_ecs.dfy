/**
 * The earlier entity-component store (src/ecs.py:37-78): the same counter and
 * tables as the shared one, without destroy_entity, so an (entity, kind) entry
 * once added stays present for the life of the world.
 */
module LegacyEcs {
  import opened Wrappers
  import opened Components
  import opened Store

  class World {
    var next: nat
    var tables: Tables

    ghost predicate Valid()
      reads this
    {
      WellKinded(tables)
    }

    constructor ()
      ensures Valid()
      ensures next == 0 && tables == map[]
    {
      next := 0;
      tables := map[];
    }

    method CreateEntity() returns (e: nat)
      modifies this
      ensures e == old(next) && next == old(next) + 1
      ensures tables == old(tables)
    {
      e := next;
      next := next + 1;
    }

    /** Insert or overwrite; no entry present before is lost, since the class has no removal. */
    method AddComponent(e: nat, c: Component)
      requires Valid()
      modifies this
      ensures Valid()
      ensures tables == Insert(old(tables), e, c) && next == old(next)
      ensures forall e', k :: Lookup(old(tables), e', k).Some? ==> Lookup(tables, e', k).Some?
      ensures GetComponent(e, KindOf(c)) == Some(c)
    {
      ghost var t0 := tables;
      var k := KindOf(c);
      if k !in tables {
        var empty: Table := map[];
        tables := tables[k := empty];
      }
      var table: Table := tables[k][e := c];
      tables := tables[k := table];
      assert tables == Insert(t0, e, c);
      LookupInsert(t0, e, c, e, k);
      forall e', k' | Lookup(t0, e', k').Some?
        ensures Lookup(tables, e', k').Some?
      {
        InsertKeepsEntries(t0, e, c, e', k');
      }
    }

    function GetComponent(e: nat, k: Kind): (r: Option<Component>)
      reads this
      requires Valid()
      ensures r.Some? ==> KindOf(r.value) == k
      ensures r.Some? <==> k in tables && e in tables[k]
      ensures r.Some? ==> r.value == tables[k][e]
    {
      Lookup(tables, e, k)
    }

    method GetComponents(kinds: seq<Kind>) returns (rows: map<nat, seq<Component>>)
      requires Valid()
      ensures rows == Query(tables, kinds)
      ensures forall e :: e in rows ==> |rows[e]| == |kinds|
    {
      rows := Collect(tables, kinds);
    }
  }
}
